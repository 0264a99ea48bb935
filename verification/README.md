# KRSM closure engine: a verified model

KRSM decides whether a Kubernetes action stays inside a task's authorised scope. It walks
from the action's target over the live relations (ownership, namespace containment, label
selectors, cross-references), collects the affected-resource closure, and compares the
closure with the scope. This project models the closure engine, the scope compiler, and the
two projections that feed the engine (the live builder over untyped trees and the manifest
loader), and proves what they compute.

## How it is organised

| file | models |
|---|---|
| `model.dfy` | refs, keys, objects, selectors, clauses and their validation |
| `selector_theory.dfy` | what selectors mean, when two bind alike, and which selector changes the comparison cannot see |
| `state.dfy` | the relations as queries over an inventory; `ScanState`, the linear-scan state |
| `classify.dfy` | effect classes of an action |
| `graph.dfy`, `worklist.dfy` | reachability as a least fixed point; the invariant both worklist loops share |
| `paths.dfy` | exactly when what a worklist expands depends on the order it expands in |
| `closure.dfy` | the edges the walk follows, the run of the loop turn by turn, and the `Closure` loop |
| `closure_theory.dfy`, `monotone.dfy` | what `Closure` computes: bounds, determinism, exact members, the least fixed point, monotonicity |
| `safe.dfy` | `StateResolver` with its memo, `MatchScope`, `Safe` |
| `verdict_theory.dfy` | memo transparency, ownership grants, the subset test, scope algebra, stronger verbs, derived scope, larger reads, modes |
| `scope.dfy` | `Derive`, `Compile`, `Apply` |
| `trees.dfy`, `cluster.dfy` | untyped trees and the live builder |
| `scenario.dfy` | decoded manifests and the loader's projection |
| `confinement.dfy` | built inventories keep non-cascading actions in their namespace |
| `parity.dfy`, `twins.dfy`, `encoding.dfy` | builder and loader agree, down to the decision |
| `witnesses.dfy` | concrete inventories where a bound is met or a plausible claim fails |
| `relation_laws.dfy`, `effect_laws.dfy`, `scope_laws.dfy` | the relations, the members of every decision verb by verb, and what scopes grant and refuse, in fields and literal kinds alone |
| `reference_laws.dfy`, `loader_laws.dfy`, `pipeline_laws.dfy` | what trees and manifests read as, in literal field names and kinds, and what is held when a referent is acted on |
| `sorting.dfy`, `prelude.dfy` | listing and sorting, small datatypes |

Imperative code is modelled by classes and by methods with loops. Each such method is proved
equal to a function, or related by a predicate, over the inventory (a sequence of objects); the
laws are lemmas about those. Maps with arbitrary iteration order are read by nondeterministic
choice, so what is proved holds for every order.

A *plain* inventory has kinds without a colon; the condition, true of every Kubernetes kind,
keeps a human-name key from being mistaken for a uid key. *Keys resolve* in an inventory when two
object refs with one key resolve to one object, as on every plain one, duplicates included. A
*well-formed* inventory is plain, and different objects in it differ in human name and, where both
have one, in uid. A target *agrees* when it resolves to an object of its own kind, namespace and
name; it is *ousted* when a binder of an expanded pod, other than the target, carries the target's
key and so takes its place among the members. Roots *resolve alike* when those under one key are
both absent or find the same object.

A *run* follows the loop of `Closure` turn by turn in the order of its queue; only the order in
which the maps of a mutation are listed is free. An *outcome* is the sorted record of a finished
walk in any order of expansion, and so what a `State` that lists its relations in another order
could yield; what a run returns is an outcome. A *decision* is one `Safe` may return, from a run.

## Where the code and its documentation differ

- The comments promise at most as many closure members as objects. A target whose key is no
  object's key can be a member twice, under its own key and its object's, so the bound is one
  more (`ClosureBounded`, met by `BoundIsTight`). `ClosureFitsIff` says exactly when the promise
  holds, on every inventory, and `ClosureFitsUnlessAllReached` says it through the relations.
- Comparing labels and selectors through Go map reads is map equality exactly when the first map
  has no empty value (`SameLabelsExactIff`). The comparison also identifies an absent selector
  with a present empty one. `BindAlikeIff` says exactly when any two selectors bind alike, and so
  when an unseen change is harmless; without empty values, or without requirements, that is
  `UnseenChangeIsHarmlessIff` and `UnseenPairsChangeIsHarmlessIff`.
- The memo is keyed by the root's key while the walk may resolve the root by name. Two roots with
  one untracked uid then share an entry. `CoveredByMemo` states what is answered for every scope,
  `MemoIsTransparent` when that is the declared meaning, `MemoIsExactIff` exactly when every
  clause is answered as declared, and `MemoCanMislead` shows an input where one is not.
- A stronger verb is meant to affect at least as much, and a larger read to lose no escape. On
  well-formed inventories nothing but the target can be lost, and the target is lost exactly when
  it is newly ousted (`VerbsNest`, `ClosureGrowsWithInventory`). That happens to targets that lack
  their object's group or version: `TargetCanBeOusted` gives the input, where cascading a blocked
  delete makes it allowed, and `StrongerVerbsAreMilderIff` the exact condition. With a duplicate
  uid other members can be lost (`CascadeLosesAMember`); `EffectsNestIff` says exactly when walks
  can lose what they expand.

## Model

| member | source | states |
|---|---|---|
| Model.HumanIsNoUidKey | closure/model.go:36-46 | a human-name key of a plain kind is never any uid key |
| Model.SameKey | closure/model.go:36-46 | equal keys mean equal uids or, without uids, equal human names |
| Model.SameLabelsExactIff | closure/classify.go:130-140 | the label comparison decides equality for every second map iff the first has no empty value |
| Model.ValidClausesAreConstructed | closure/model.go:141-251 | validation accepts exactly what the four clause constructors build, up to the empty dimension and empty selectors |
| SelectorTheory.OperatorsMean | closure/selector.go:114-130 | each operator against the label map; negations are complements and hold of a missing key; unknown operators match nothing |
| SelectorTheory.LongerSelectorIsNarrower | closure/selector.go:99-111 | adding pairs or requirements to a non-empty selector never binds more |
| SelectorTheory.UnseenChangeIsHarmlessIff | closure/selector.go:32-56 | a change the comparison misses, in a selector without empty values, binds alike for every kind and label set iff it keeps nil apart from present-empty |
| SelectorTheory.UnseenPairsChangeIsHarmlessIff | closure/selector.go:32-56 | a change the comparison misses, in a selector without requirements and with any values, binds alike iff nothing changed at all |
| SelectorTheory.BindAlikeIff | closure/selector.go:32-130 | any two selectors bind alike for every kind and label set iff neither ever binds, or they agree in being nil, in being empty, and in what they ask of every single key |
| Inventory.FindUid | closure/state.go:52-56 | the last object with a uid, and none only if no object has it |
| Inventory.FindHuman | closure/state.go:52-58 | the last object with a human name, and none only if no object has it |
| Inventory.OwnRefLookup | closure/state.go:61-69 | on a well-formed inventory an object's own ref looks up that object |
| RelationLaws.HumanIdentifies | closure/model.go:36-46 | slash-free identities have one human name iff kind, namespace and name agree |
| RelationLaws.LookupMeans | closure/state.go:61-71 | lookup finds the last object with the ref's non-empty uid, and without a tracked uid the last with its human name |
| Inventory.ScanFinds | closure/state.go:73-182 | a scan returns exactly the refs of the objects its query hits |
| ScanStates.ScanState.constructor | closure/state.go:44-59 | the maps built index the last object with each uid and each human name |
| ScanStates.ScanState.Get | closure/state.go:61-71 | lookup through the maps is the last-wins linear search by uid, then by human name |
| ScanStates.ScanState.OwnedChildren | closure/state.go:73-89 | exactly the objects listing the owner's uid, in inventory order |
| ScanStates.ScanState.NamespaceContents | closure/state.go:91-100 | exactly the non-Namespace objects of the namespace, in order |
| ScanStates.ScanState.PodsSelectedBy | closure/state.go:102-108 | the pods bound by the resolved owner's selector in its namespace |
| ScanStates.ScanState.PodsMatching | closure/state.go:110-119 | exactly the pods of the namespace the selector binds, in order |
| ScanStates.ScanState.SelectorsTargeting | closure/state.go:121-127 | the binders of the pod's live labels in the pod ref's namespace |
| ScanStates.ScanState.SelectorsMatchingLabels | closure/state.go:129-141 | exactly the binding kinds of the namespace whose selector binds the labels |
| ScanStates.ScanState.Consumers | closure/state.go:143-162 | exactly the objects with a non-scale reference to the resolved target |
| ScanStates.ScanState.ControllersTargeting | closure/state.go:164-182 | exactly the objects with a scale-target reference to the resolved target |
| RelationLaws.SelectorBindsMeans | closure/state.go:184-200 | a nil selector binds nothing, a present empty one all but for a Service, any other what its pairs and requirements ask of the labels, in literal operators |
| RelationLaws.ChildrenMean | closure/state.go:73-89 | a child is exactly an object with some owner entry, whichever, carrying the resolved owner's non-empty uid |
| RelationLaws.ContentsMean | closure/state.go:91-100 | the contents of a namespace are the objects in it of any kind but Namespace |
| RelationLaws.SelectedPodsMean | closure/state.go:102-119 | the selected are the Pods of the resolved owner's namespace its selector binds |
| RelationLaws.PodBindersMean | closure/state.go:121-141 | the binders are the Services, PodDisruptionBudgets and NetworkPolicies of the pod ref's namespace whose selector binds its live labels |
| RelationLaws.ConsumersMean | closure/state.go:143-162 | a consumer has a reference, other than a scale target, that names the resolved target by uid where both have one, else by kind, namespace and name |
| RelationLaws.ScalersMean | closure/state.go:164-182 | a scaler has a scale-target reference that names it so |
| RelationLaws.NamesTwoIff | closure/state.go:202-211 | on well-formed inventories a reference names two objects iff its uid is one's and its identity is another's that has no uid |
| RelationLaws.ConsumerOfItsReferentsOnly | closure/state.go:143-162 | on well-formed inventories, where references carry their referents' uid and identity, a reference to one object never makes its holder a consumer of another |
| Classification.Classify | closure/classify.go:38-94 | the verb-by-verb branches yield exactly the class-by-class conditions of `Effects` |
| EffectLaws.EffectsMean | closure/classify.go:38-94 | each effect in literal verbs and kinds: which action has it and which has not |
| Classification.FinalizersRemoved | closure/classify.go:114-128 | true iff some old finalizer is missing from the new payload |
| Classification.DroppedMember | closure/closure.go:160-177 | the dropped finalizers are exactly the old ones not kept |
| Classification.RemovedFinalizers | closure/closure.go:160-177 | the dropped finalizers in old order; all old ones when there is no new payload |
| Graph.ReachIsLeast | closure/closure.go:29-86 | reachability is membership in every closed set holding the start |
| Worklist.WalkExpands | closure/closure.go:29-34 | expanding the queue head keeps the walk's invariant (every expanded ref reached through expanded refs alone) and shrinks the unvisited keys |
| Worklist.WalkIsComplete | closure/closure.go:29-86 | when equal keys lead alike, a finished walk has expanded the key of everything reachable |
| Paths.WalksNestIff | closure/closure.go:29-36 | for a relation inside another: every finished walk along the larger expands all that any along the smaller does iff no two refs under one key are reached, one along each, by paths that repeat no key |
| Paths.WalkIsUniqueIff | closure/closure.go:29-36 | what a walk expands is independent of its order iff no two refs under one key are reached by such paths |
| Closures.SelectorMutationAffected | closure/closure.go:95-113 | only, and up to key all, pods the old or the new selector binds |
| Closures.LabelMutationAffected | closure/closure.go:118-136 | only, and up to key all, binders of the old or the new labels |
| Closures.Record | closure/closure.go:78-85 | cur is filed under its key, then its binders, which replace what their keys held; nothing else changes |
| Closures.RecordNext | closure/closure.go:36-85 | that keeps the record exact: expanded refs and their binders, one a key, the target's entry yielding only to a binder |
| Closures.Closure | closure/closure.go:19-89 | terminates on every inventory; returns nothing for an unresolvable target, else the sorted map of a run that emptied its queue |
| Closures.RunIsOutcome | closure/closure.go:19-89 | what a run returns is the sorted record of a finished walk in which every ref was reached through expanded ones |
| EffectLaws.EdgeMeans | closure/closure.go:38-76 | the walk follows exactly what the verb leads to, in fields and literal kinds |
| Sorting.SortedRefs | closure/closure.go:179-186 | every map entry exactly once, sorted by human name, for every iteration order |
| Sorting.SortedListUnique | closure/closure.go:179-186 | a sorted list without repeats and with distinct names is decided by its members |
| Sorting.LeqMeans | closure/closure.go:179-186 | the order on names: a prefix first, else the first differing character decides |
| Sorting.LastIsFiled | closure/closure.go:78-85 | of several refs filed under one key the last stays |
| ClosureTheory.ClosureResolves | closure/closure.go:14-18 | on every inventory the outcome is empty iff the target is unresolvable, and its members resolve |
| ClosureTheory.ClosureBounded | closure/closure.go:14-18 | on every inventory keys are distinct and there is at most one member more than objects |
| ClosureTheory.ClosureFitsIff | closure/closure.go:14-18 | on every inventory: no more members than objects iff an object carries the target's key, two listed objects share a key, or some object's key is no member's |
| ClosureTheory.ClosureFitsUnlessAllReached | closure/closure.go:14-18 | on a well-formed one the last case reads: some object is neither reached nor a binder of a reached pod |
| ClosureTheory.MembersExactly | closure/closure.go:19-89 | on every well-formed inventory, for any resolvable target and any order, the members are exactly the refs the walk expands without passing another ref under the target's key, the target unless ousted, and the binders of the pods among them |
| ClosureTheory.ClosureIsExact | closure/closure.go:19-89 | on well-formed inventories, for an agreeing target, the members are exactly the reached refs and the binders of reached pods, with the rule for the target's own entry |
| ClosureTheory.ClosureIsLeastFixedPoint | closure/closure.go:19-89 | on well-formed inventories, for an agreeing target, the objects resolved to are exactly the least set holding the target's object and closed under licensed edges, plus the binders of its pods |
| ClosureTheory.ClosureIsDeterministic | closure/closure.go:179-186 | on every well-formed inventory two outcomes have the same members, and are the same list when human names are distinct |
| ClosureTheory.OutcomeHeldIff | closure/closure.go:29-86 | on well-formed inventories, when one run follows and binds at least what another does, its outcome holds all the other's members iff it ousts the target only if the other does; nothing but the target can be missing |
| ClosureTheory.TargetKeptIff | closure/closure.go:78-86 | on well-formed inventories a resolvable target is a member iff it is not ousted |
| Monotonicity.ClosureGrowsWithEffects | closure/closure.go:38-85 | on well-formed inventories, outcome for outcome: more effects lose no member but perhaps the target, and nothing at all iff they oust the target only if the fewer do |
| Monotonicity.EffectsNestIff | closure/closure.go:29-76 | on every inventory, duplicates included: with more effects every walk expands all that any does with fewer iff the two sets of edges never reach different refs under one key by paths that repeat no key |
| Monotonicity.KeysGrowWithEffects | closure/closure.go:29-86 | under that condition every key of an outcome with fewer effects is one of every outcome with more |
| Monotonicity.WellFormedNeverClashes | closure/closure.go:29-36 | the condition holds on every well-formed inventory |
| Monotonicity.VerbsNest | closure/classify.go:38-94 | on well-formed inventories, for cascading against non-cascading delete, and scale, update or patch against restart: nothing but the target can be lost, and nothing is iff the stronger verb ousts the target only if the weaker does |
| Monotonicity.PatchIsUpdate | closure/classify.go:69-91 | update and patch have the same runs and outcomes on every inventory |
| Monotonicity.ClosureGrowsWithInventory | closure/state.go:61-182 | on well-formed inventories, outcome for outcome: new objects with fresh uids and names lose no member but perhaps the target, and nothing iff the larger read ousts the target only if the smaller does |
| Verdicts.StateResolver.WalkSubtree | closure/safe.go:110-135 | terminates; on every inventory returns only keys of the root and of what it transitively owns, and all of them where keys resolve, duplicates and cycles included |
| Verdicts.StateResolver.OwnedSubtree | closure/safe.go:110-138 | every memo entry and answer is, in that sense, the subtree of the first root asked under its key |
| Verdicts.MatchClause | closure/safe.go:160-192 | whether one clause covers a ref, given the resolver's history: never wrongly yes, and exact where keys resolve |
| Verdicts.MatchScope | closure/safe.go:160-195 | the answer on any call history, and on the history of calls with the same scope: never wrongly yes, and exact where keys resolve |
| Verdicts.ExternalEffects | closure/closure.go:141-158 | one external ref per dropped finalizer of a resolvable mutated target, in order |
| Verdicts.Safe | closure/safe.go:17-62 | closure, escaping members, external effects, verdict and reason of every input, fail-closed included; an uncovered member always escapes, and only those do where keys resolve |
| VerdictTheory.MemoIsTransparent | closure/safe.go:84-138 | on every inventory, when the scope's roots resolve alike, absent ones included, the memo answers the declared meaning |
| VerdictTheory.HistoryIsTransparent | closure/safe.go:84-195 | so does a resolver after any sequence of calls, when the roots asked and declared resolve alike |
| VerdictTheory.SettledRootsResolve | closure/safe.go:110-122 | roots resolve alike when no two share a key, or when those that do have tracked uids or none |
| VerdictTheory.CachedAnswerRightIff | closure/safe.go:110-138 | on well-formed inventories, for roots of plain kinds: a cached subtree is right for another root with its key iff neither resolves, or each one's object is in the other's subtree |
| VerdictTheory.MemoIsExactIff | closure/safe.go:110-138 | on well-formed inventories, for roots of plain kinds: every clause is answered as declared for every ref iff each ownership root and the first one declared under its key are interchangeable in that sense |
| VerdictTheory.AbsentRootGrantsNothing | closure/safe.go:103-125 | on well-formed inventories an absent root of a plain kind fails closed: no tracked resource is in its subtree |
| VerdictTheory.GrantsNest | closure/safe.go:110-138 | on well-formed inventories, for a root of a plain kind: a tracked resource in its subtree has its whole subtree inside it |
| VerdictTheory.CycleSharesSubtree | closure/safe.go:110-138 | on well-formed inventories tracked members of an ownership cycle have one subtree |
| VerdictTheory.BlockIsSubsetTest | closure/safe.go:36-54 | where keys and roots resolve: blocks iff unresolvable or some member is outside the scope; escaping is exactly those; warns iff none escape and a finalizer was dropped |
| VerdictTheory.UnblockedIsCovered | closure/safe.go:10-54 | on every inventory, what is not blocked has a resolvable target and only covered members |
| VerdictTheory.EscapingIsExact | closure/safe.go:36-42 | on well-formed inventories, for any resolvable target and roots that resolve alike: escaping is a function of the input, the exact members minus those the declared scope covers |
| VerdictTheory.CoveredAppend | closure/safe.go:160-195 | a concatenated scope covers what either part covers; so does a resolver on any history, and the memo when roots resolve alike |
| VerdictTheory.WiderScopeOnMembers | closure/safe.go:36-54 | where keys and roots resolve, for decisions on the same members: more clauses only shrink escaping and never raise the verdict |
| VerdictTheory.WiderScopeIsMilder | closure/safe.go:36-54 | on well-formed inventories, when the wider scope's roots resolve alike, for any two decisions: more clauses only shrink escaping and never raise the verdict |
| VerdictTheory.SafeIsDeterministic | closure/safe.go:17-62 | on well-formed inventories two decisions on one input agree in members, escapes, verdict and reason, and are equal when human names are distinct |
| VerdictTheory.SameClausesSameVerdict | closure/safe.go:36-54 | on well-formed inventories, when roots resolve alike: order and repetition of clauses do not matter |
| VerdictTheory.MoreEffectsEscapeMore | closure/safe.go:36-41 | on well-formed inventories, under one scope: an action with more effects on the same target keeps every escape but perhaps the target's, and that one iff it does not oust the target |
| VerdictTheory.StrongerVerbsAreMilderIff | closure/safe.go:36-54 | on well-formed inventories, for a resolvable target and one scope: a cascading delete is milder than the non-cascading one, or a scale, update or patch than a restart, iff the target escaped, is ousted by the stronger verb, and nothing then escapes |
| VerdictTheory.WalksAgree | closure/safe.go:97-101 | on every well-formed inventory, whatever the target resolves to: what a purely cascading delete expands resolves to exactly what the ownership walk visits |
| VerdictTheory.DerivedScopeCoversItsTree | scope/scope.go:103-119 | where keys resolve, under the derived scope neither the target, nor what it owns, nor a ref with a key in its subtree escapes |
| VerdictTheory.DerivedScopeEscapes | scope/scope.go:103-119 | on well-formed inventories, for an agreeing target: under the derived scope a purely cascading delete escapes exactly through unowned binders of owned pods |
| VerdictTheory.EscapeSurvivesIff | closure/safe.go:36-41 | on well-formed inventories an escape survives a larger read with fresh uids and names iff no ownership clause's subtree over that read holds it and, if it is the target, that read does not oust it |
| VerdictTheory.EscapeSurvivesLargerRead | closure/safe.go:36-41 | without ownership clauses every escape survives such a read, but for an ousted target, and so does the block unless that was the only escape |
| VerdictTheory.ModesPreserve | scope/scope.go:141-151 | audit blocks iff the target is unresolvable; modes keep the lists and are idempotent |
| EffectLaws.DeleteHolds | closure/classify.go:43-59 | every decision on a delete holds: what the target's object owns if cascading, by whichever owner entry; the users of a ConfigMap, Secret or PersistentVolumeClaim; the Pods of a Deployment, ReplicaSet, StatefulSet or DaemonSet; the contents of a Namespace |
| EffectLaws.RestartAndScaleHold | closure/classify.go:60-68 | every decision on a restart or scale of one of the four workload kinds holds its Pods, and a scale what scales it |
| EffectLaws.MutationHolds | closure/classify.go:69-91 | every decision on an update or patch holds the users of a config object, the Pods of a workload, the Pods of the old and of the new selector when they differ, and the binders of the old and of the new labels when they differ |
| EffectLaws.PodBindersAreHeld | closure/closure.go:78-86 | whatever the verb, acting on a Pod holds what binds its live labels |
| EffectLaws.UncoveredBlocks | closure/safe.go:36-54 | on well-formed inventories what the target leads to, under another key, escapes and blocks unless covered |
| EffectLaws.CascadeHoldsDescendants | closure/closure.go:38-41 | on well-formed inventories a cascading delete holds everything down a line of owner entries from the target's object |
| EffectLaws.MembersMean | closure/closure.go:19-89 | on well-formed inventories the members of every decision are exactly the refs its verb leads to and the binders of the Pods among them, in fields and literal kinds, the target yielding to a binder under its key |
| EffectLaws.InertAffectsTheTarget | closure/classify.go:38-94 | on every inventory: another verb, a plain delete of another kind, a scale or restart of no workload, a mutation of another kind that changes neither selector nor labels affects only the target and, if a Pod, its binders |
| EffectLaws.MemberIsLedTo | closure/closure.go:29-86 | on every inventory each member is led to step by step, or binds a Pod that is |
| EffectLaws.RestartAffectsOnly | closure/classify.go:65-68 | on every inventory a restart affects only the target, Pods its object selects, and what binds one of these |
| ScopeLaws.ClauseMeans | closure/safe.go:160-192 | what a clause of each dimension but ownership grants: its namespace, the kind, group and version it names, and then its name pattern, its non-empty selector on the live labels, or nothing more |
| ScopeLaws.RefusedEscapes | closure/safe.go:206-242 | on every inventory, without ownership clauses: a member every clause refuses, for its namespace, kind, group, version, an empty selector or an unknown dimension, escapes and blocks |
| ScopeLaws.OtherNamespaceEscapes | closure/safe.go:219-219 | so a member in a namespace no clause names escapes and blocks |
| ScopeLaws.EscapingMeans | closure/safe.go:36-41 | without ownership clauses, where keys resolve, the escaping are exactly the members no clause grants |
| ScopeLaws.OwnershipMeans | closure/safe.go:110-138 | on well-formed inventories an ownership clause covers its root's key and the keys down a line of owner entries from the root's object |
| ScopeLaws.VerdictMeans | closure/safe.go:43-61 | the verdict and the reason follow from the three lists |
| ScopeLaws.ExternalsMean | closure/closure.go:141-158 | the external references are one for each finalizer an update or patch drops, of kind External, in the target's namespace, under its name |
| ScopeLaws.AuditMeans | scope/scope.go:141-151 | audit turns exactly a scope escape into a warning that keeps the reason; nothing else changes in any mode |
| Scopes.Compile | scope/scope.go:158-212 | succeeds iff envelope known and every entry compiles; one valid clause per entry in order; else the first failing entry |
| ScopeLaws.CompilableMeans | scope/scope.go:195-212 | an entry compiles iff it is a resource entry without a selector or a selector entry without a name |
| ScopeLaws.EnvelopeMeans | scope/scope.go:158-171 | the envelope's literals |
| ScopeLaws.ContractMeans | scope/scope.go:173-212 | under a compiled contract, where keys resolve, the escaping are exactly the members no entry allows in its own fields |
| Cluster.GvkSplits | internal/cluster/build.go:150-160 | a slash-free group comes back from the api version, and a bare version is the core group's |
| Trees.NestedStringMap | internal/cluster/build.go:224-238 | the string map at a path, or nothing if one value is not a string, for every key order |
| Trees.NestedStringSlice | internal/cluster/build.go:242-256 | the string list at a path, or nothing if one element is not a string |
| Cluster.NewNameUidIndex | internal/cluster/build.go:44-58 | the uid of the last listed object with each identity, or the first nameless object's error |
| Cluster.MatchLabelsFrom | internal/cluster/selector.go:49-85 | the wrapper's selector with nil kept apart from empty, or the first unknown operator's error |
| Cluster.OwnersOf | internal/cluster/build.go:113-131 | one owner entry per map in the list, in order |
| Cluster.PodSpecCrossRefs | internal/cluster/crossref.go:40-94 | the resolved references of exactly the mentions in a pod spec, in order |
| Cluster.ContainerCrossRefs | internal/cluster/crossref.go:96-131 | the resolved references of a container's environment mentions, in order |
| Cluster.CrossRefsFromUnstructured | internal/cluster/crossref.go:15-33 | spec, template and scale-target mentions resolved through the index |
| Cluster.BuildObjects | internal/cluster/build.go:25-39 | every tree's object in order, or the first error |
| ReferenceLaws.ReadersMean | internal/cluster/build.go:178-256 | anything but a string reads as empty, and a map or list of strings is read whole or not at all |
| ReferenceLaws.RequirementsMean | internal/cluster/selector.go:58-80 | the requirements are those of the list's maps, in order, and fail iff one has an operator other than the four |
| ReferenceLaws.TreeMentionsMean | internal/cluster/crossref.go:15-131 | exactly what is named under each literal field name, for each use and kind, in the spec and the pod template, and what is scaled |
| ReferenceLaws.IndexMeans | internal/cluster/build.go:44-58 | a reference's uid is that of the last listed tree of its kind, namespace and name that has one, else none |
| ReferenceLaws.BuiltObjectMeans | internal/cluster/build.go:62-87 | each tree becomes the object with its identity, labels and finalizers, in literal field names |
| ReferenceLaws.BuiltOwnersMean | internal/cluster/build.go:113-131 | an owner entry for exactly the maps listed as owner references |
| ReferenceLaws.BuiltSucceedsIff | internal/cluster/build.go:25-39 | building succeeds iff every tree has a kind, a name and a readable selector |
| ReferenceLaws.NamespaceMeans | internal/cluster/build.go:162-177 | cluster-scoped kinds have no namespace, the others their own or the default one |
| ReferenceLaws.BuiltReferences | internal/cluster/crossref.go:15-150 | a built object's references are exactly those its tree writes, in its namespace, with the listed uid |
| ReferenceLaws.BuiltConsumers | internal/cluster/crossref.go:7-33 | on well-formed built inventories an object is a consumer of another iff its tree names the other's kind and name, at any position, in one namespace; a scaler iff its scale target does |
| Confinement.BuiltIsLocal | internal/cluster/crossref.go:140-150 | every built reference stays in its object's namespace and carries only uids of objects there |
| Confinement.ClosureStaysInNamespace | closure/closure.go:49-85 | on built objects, when the target's namespace is its object's, an action that is neither a cascading nor a Namespace delete affects only the target's namespace |
| Confinement.NamespaceClauseSuffices | closure/model.go:153-161 | so under an ungated clause for that namespace nothing escapes, and only an unresolvable target is blocked |
| Scenario.MatchLabels | internal/scenario/scenario.go:306-341 | the wrapper's selector, or the first unknown operator's error |
| Scenario.PodSpecRefs | internal/scenario/scenario.go:376-425 | the synthesised references of exactly the mentions in a pod spec, in order |
| Scenario.CrossRefsFrom | internal/scenario/scenario.go:361-374 | spec, template and scale-target mentions with synthesised uids |
| Scenario.ParseCluster | internal/scenario/scenario.go:427-460 | every manifest's object in order, kindless ones skipped, or the first error |
| LoaderLaws.SpecUsesMean | internal/scenario/scenario.go:361-425 | a manifest mentions exactly what it names, for each use and kind, in its pod spec and its template, and what it scales |
| LoaderLaws.ClusterScopeMeans | internal/scenario/scenario.go:249-263 | the cluster-scoped kinds, in literals |
| LoaderLaws.LoadedObjectMeans | internal/scenario/scenario.go:440-457 | each manifest becomes the object with its identity, labels, finalizers and owners, uids made of kind, namespace and name |
| LoaderLaws.WrapperMeans | internal/scenario/scenario.go:321-341 | a present wrapper keeps its pairs and requirements, and is present-empty when it has neither |
| LoaderLaws.LoadedMembers | internal/scenario/scenario.go:427-460 | the objects loaded are exactly those of the manifests with a kind |
| LoaderLaws.LoadedSucceedsIff | internal/scenario/scenario.go:427-460 | loading succeeds iff every manifest with a kind has a readable selector |
| LoaderLaws.LoadedReferences | internal/scenario/scenario.go:361-425 | a loaded object's references are exactly those its manifest writes, in its namespace, with the synthetic uid |
| LoaderLaws.LoadedConsumers | internal/scenario/scenario.go:361-425 | on well-formed loaded inventories, for slash-free referents: a consumer iff the manifest names the other's kind and name in one namespace; a scaler iff its scale target does |
| PipelineLaws.BuiltUserIsHeld | internal/cluster/crossref.go:7-33 | on well-formed built inventories deleting, updating or patching a ConfigMap, Secret or PersistentVolumeClaim holds every object of its namespace whose tree names it |
| PipelineLaws.BuiltScalerIsHeld | internal/cluster/crossref.go:27-31 | scaling a workload holds every object of its namespace whose tree scales it |
| PipelineLaws.LoadedUserIsHeld | internal/scenario/scenario.go:361-425 | the same of loaded manifests that name a config object |
| PipelineLaws.LoadedScalerIsHeld | internal/scenario/scenario.go:369-372 | the same of loaded manifests that scale a workload |
| Parity.MentionsAgree | internal/cluster/crossref.go:7-33 | the builder finds in a tree exactly the references the loader finds in the manifest it represents, in order |
| Parity.SelectorAgrees | internal/cluster/selector.go:11-41 | both read one selector or both fail |
| Parity.BuildMatchesLoad | internal/cluster/build.go:12-24 | both accept or both fail; the objects are equal in order, but for the uid of an unlisted referent |
| TwinTheory.UidIdentifies | internal/scenario/scenario.go:275-277 | a synthetic uid equal to a slash-free object's identifies its kind, namespace and name |
| TwinTheory.QueriesSame | closure/state.go:73-182 | all eight relation queries answer alike over built and loaded inventories |
| TwinTheory.DecisionsSame | internal/cluster/build.go:12-24 | the possible decisions over the two inventories are the same |
| TwinTheory.PipelinesAgree | internal/cluster/parity_corpus_test.go:18-31 | trees and the manifests they represent decide every action under every scope alike |
| Encoding.EncodeRepresents | internal/scenario/scenario.go:137-224 | every well-typed manifest has a tree that represents it |
| Encoding.WrappedServiceDiverges | internal/scenario/scenario.go:283-293 | a Service that carries a wrapper selector: the loader rejects it, the builder reads its tree as the present empty selector |
| Encoding.EncodedManifestsDecideAlike | internal/cluster/parity_corpus_test.go:18-31 | for every list of admissible manifests, encoding and building agrees with loading, objects and decisions |
| Witnesses.BoundIsTight | closure/closure.go:14-18 | one object, and an outcome of two members as every outcome has: the larger bound is met |
| Witnesses.CascadeLosesAMember | closure/closure.go:29-76 | two objects with one uid: no run of a cascading delete returns a member that every run of the non-cascading one returns |
| Witnesses.TargetCanBeOusted | closure/closure.go:78-85 | a well-formed inventory and a target without its object's version: the non-cascading delete is blocked and the cascading one allowed, which a smaller read blocks too |
| Witnesses.MemoCanMislead | closure/safe.go:110-138 | roots sharing an untracked uid: the scope covers a member the memo does not |
| Witnesses.OwnershipEscapeCanVanish | closure/safe.go:110-138 | with an ownership clause a larger read can make an escape vanish |

## Left out

- Closures.Closure: where duplicates make the order matter, the order in which Go lists the maps of a mutation is free, so the contract relates the result to some run; it fixes the members on every well-formed inventory.
- ClosureTheory.ClosureIsLeastFixedPoint: for targets that agree, since a target of another kind follows other relations than its object; `MembersExactly` covers every resolvable target.
- Monotonicity.EffectsNestIff: exact for walks in every order; a run with its queue order may nest where some walk does not.
- VerdictTheory.MemoIsTransparent: roots resolving alike is sufficient, not necessary, for a whole scope, since another clause may cover the same member; `MemoIsExactIff` is the exact condition clause by clause.
- VerdictTheory.EscapeSurvivesLargerRead: the absence of ownership clauses is sufficient, not necessary; `EscapeSurvivesIff` is the exact condition, and `OwnershipEscapeCanVanish` an input that fails it.
- Parity.Represents: only well-typed manifests have representing trees; `WrappedServiceDiverges` shows the readers differ on one that is not.
- Nil and empty label maps, finalizer lists and owner lists are one value; nothing in the engine tells them apart. Nil and empty matchLabels are kept apart.
- YAML and JSON decoding, document splitting and comment stripping: the loader starts from decoded manifests, so nulls, absent-versus-empty lists and duplicate fields are not modelled.
- Reading scope.yaml, taskcontract.yaml and request.yaml: field copying around decoding.
- path.Match is an arbitrary predicate, as every law holds for any; the sort is any sorted permutation.
- Verbs, dimensions and modes are datatypes with a case for any other string, in place of raw strings; effect sets are records of flags, in place of maps to bool.
- Error and reason texts (a decision's reason is one of a few cases), verdict and ref printing, provenance strings; maxSeverity is carried, not enforced, as in the code.
- The inner loops of the scans, the loop body of the closure walk and the memo-free walk are methods of their own.
- The scan state copies its input and is never updated, so its fields are constants and its maps hold positions in the inventory.
- The live reader, the command line, the webhook and informer designs: I/O and plumbing.
- Whether the relations match Kubernetes itself, such as its treatment of empty label values.
