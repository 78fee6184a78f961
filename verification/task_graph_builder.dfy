// TaskGraphBuilder::createPlans: package edges lifted to the groups that hold their ends.
module TaskGraphBuilder {
  import opened Sequences
  import opened Sorting
  import opened Packages
  import opened TaskPlans
  import opened VertexOrder
  import opened TaskGroups
  import opened GroupContents

  /** The scheduling policy of the platform and Registry::resolvePluginName. */
  datatype Policy = Policy(windows: bool, resolve: string -> string)

  /** The last group that holds a package with the key. */
  function GroupIndex(groups: seq<TaskGroup>, key: string): Option<nat> {
    if groups == [] then None
    else if Holds(groups[|groups| - 1], key) then Some(|groups| - 1)
    else GroupIndex(groups[..|groups| - 1], key)
  }

  lemma {:induction false} GroupIndexIsLast(groups: seq<TaskGroup>, key: string)
    ensures match GroupIndex(groups, key)
            case None => forall i :: 0 <= i < |groups| ==> !Holds(groups[i], key)
            case Some(last) => last < |groups| && Holds(groups[last], key) && forall i :: last < i < |groups| ==> !Holds(groups[i], key)
  {
    if groups != [] {
      GroupIndexIsLast(groups[..|groups| - 1], key);
    }
  }

  method IndexPackages(groups: seq<TaskGroup>) returns (index: map<string, nat>)
    ensures forall key :: key in index <==> GroupIndex(groups, key).Some?
    ensures forall key :: key in index ==> GroupIndex(groups, key) == Some(index[key])
  {
    index := map[];
    for i := 0 to |groups|
      invariant forall key :: key in index <==> GroupIndex(groups[..i], key).Some?
      invariant forall key :: key in index ==> GroupIndex(groups[..i], key) == Some(index[key])
    {
      ghost var before := index;
      var packages := groups[i].packages;
      for k := 0 to |packages|
        invariant forall key :: key in index <==> key in before || exists j :: 0 <= j < k && KeyOf(packages[j]) == key
        invariant forall key :: key in index ==>
          if exists j :: 0 <= j < k && KeyOf(packages[j]) == key then index[key] == i else key in before && index[key] == before[key]
      {
        index := index[KeyOf(packages[k]) := i];
      }
      assert groups[..i + 1][..i] == groups[..i];
    }
    assert groups[..|groups|] == groups;
  }

  // ------------------------------------------------------------ group edges

  function ResolvedAt(policy: Policy, g: Graph, v: nat): string {
    if v < |g.vertices| then policy.resolve(g.vertices[v].system) else ""
  }

  /** Package edge e runs from nix to another system, by resolved name. */
  predicate LeavesNix(policy: Policy, g: Graph, e: (nat, nat)) {
    IsNix(ResolvedAt(policy, g, e.0)) && !IsNix(ResolvedAt(policy, g, e.1))
  }

  /** Groups s and t are scheduled to hold the ends of package edge e. */
  predicate Lifts(g: Graph, groups: seq<TaskGroup>, e: (nat, nat), s: nat, t: nat) {
    GroupIndex(groups, KeyAt(g, e.0)) == Some(s) && GroupIndex(groups, KeyAt(g, e.1)) == Some(t)
  }

  predicate InstallLike(action: Action) {
    action == INSTALL || action == ENSURE
  }

  /** On Windows every nix install waits for every other install. */
  predicate Barrier(policy: Policy, groups: seq<TaskGroup>, s: nat, t: nat) {
    && policy.windows && s < |groups| && t < |groups| && InstallLike(groups[s].action) && InstallLike(groups[t].action)
    && !IsNix(policy.resolve(groups[s].system)) && IsNix(policy.resolve(groups[t].system))
  }

  ghost predicate LiftedBy(policy: Policy, g: Graph, groups: seq<TaskGroup>, edges: seq<(nat, nat)>, s: nat, t: nat) {
    s != t && exists e :: e in edges && Lifts(g, groups, e, s, t) && !(policy.windows && LeavesNix(policy, g, e))
  }

  /** The image of the package edges between different groups, and the barrier. */
  ghost predicate GroupEdge(policy: Policy, g: Graph, groups: seq<TaskGroup>, s: nat, t: nat) {
    LiftedBy(policy, g, groups, g.edges, s, t) || Barrier(policy, groups, s, t)
  }

  /** The systems a nix group of a plan lists as its consumers. */
  ghost predicate Consumes(policy: Policy, g: Graph, groups: seq<TaskGroup>, edges: seq<(nat, nat)>, s: nat, system: string) {
    exists e, t :: e in edges && Lifts(g, groups, e, s, t) && LeavesNix(policy, g, e) && system == ResolvedAt(policy, g, e.1)
  }

  // ----------------------------------------------------------------- builder

  function WithEdge(plans: seq<TaskGroupPlan>, s: nat, t: nat): (r: seq<TaskGroupPlan>)
    requires s < |plans| && t < |plans| && s != t
    ensures |r| == |plans|
    ensures forall i :: 0 <= i < |plans| ==>
              r[i] == TaskGroupPlan(plans[i].taskGroup, if i == s then plans[i].successors + [t] else plans[i].successors,
                                    if i == t then plans[i].pendingDependencies + 1 else plans[i].pendingDependencies)
  {
    var listed := plans[s := plans[s].(successors := plans[s].successors + [t])];
    listed[t := listed[t].(pendingDependencies := listed[t].pendingDependencies + 1)]
  }

  lemma EdgeAdded(plans: seq<TaskGroupPlan>, s: nat, t: nat)
    requires s < |plans| && t < |plans| && s != t
    ensures forall a: nat, b: nat :: Edge(WithEdge(plans, s, t), a, b) <==> Edge(plans, a, b) || (a == s && b == t)
  {
  }

  lemma EdgeCounted(plans: seq<TaskGroupPlan>, s: nat, t: nat, i: nat)
    requires s < |plans| && t < |plans| && s != t && !Edge(plans, s, t)
    ensures |Predecessors(WithEdge(plans, s, t), i)| == |Predecessors(plans, i)| + if i == t then 1 else 0
  {
    hide WithEdge, Edge, Predecessors;
    EdgeAdded(plans, s, t);
    var after := WithEdge(plans, s, t);
    PredecessorsAre(plans, i);
    PredecessorsAre(after, i);
    if i == t {
      assert Predecessors(after, i) == Predecessors(plans, i) + {s};
    } else {
      assert Predecessors(after, i) == Predecessors(plans, i);
    }
  }

  lemma EdgeKeepsDistinct(plans: seq<TaskGroupPlan>, s: nat, t: nat)
    requires s < |plans| && t < |plans| && s != t && !Edge(plans, s, t)
    requires forall i :: 0 <= i < |plans| ==> Distinct(plans[i].successors)
    ensures forall i :: 0 <= i < |plans| ==> Distinct(WithEdge(plans, s, t)[i].successors)
  {
    DistinctConcat(plans[s].successors, [t]);
  }

  lemma EdgeKeepsWellFormed(plans: seq<TaskGroupPlan>, s: nat, t: nat)
    requires WellFormed(plans) && s < |plans| && t < |plans| && s != t && !Edge(plans, s, t)
    ensures WellFormed(WithEdge(plans, s, t))
  {
    hide Edge, Predecessors, Distinct, WithEdge;
    EdgeAdded(plans, s, t);
    EdgeKeepsDistinct(plans, s, t);
    forall i: nat | i < |plans| ensures WithEdge(plans, s, t)[i].pendingDependencies == |Predecessors(WithEdge(plans, s, t), i)| {
      EdgeCounted(plans, s, t, i);
    }
  }

  lemma SeenWith(plans: seq<TaskGroupPlan>, seen: set<(nat, nat)>, s: nat, t: nat)
    requires s < |plans| && t < |plans| && s != t
    requires forall a: nat, b: nat :: (a, b) in seen <==> Edge(plans, a, b)
    ensures forall a: nat, b: nat :: (a, b) in seen + {(s, t)} <==> Edge(WithEdge(plans, s, t), a, b)
  {
    EdgeAdded(plans, s, t);
    hide Edge, WithEdge;
  }

  /** plans differ from before only in the consumers of their groups. */
  ghost predicate SameShape(before: seq<TaskGroupPlan>, plans: seq<TaskGroupPlan>) {
    && |plans| == |before|
    && forall i :: 0 <= i < |plans| ==>
         plans[i].successors == before[i].successors && plans[i].pendingDependencies == before[i].pendingDependencies
  }

  lemma ShapeKeepsWellFormed(before: seq<TaskGroupPlan>, plans: seq<TaskGroupPlan>)
    requires SameShape(before, plans)
    ensures forall a: nat, b: nat :: Edge(plans, a, b) <==> Edge(before, a, b)
    ensures WellFormed(before) ==> WellFormed(plans)
  {
    forall i: nat ensures Predecessors(plans, i) == Predecessors(before, i) {}
  }

  /** The plans under construction and the edges they already have. */
  class PlanBuilder {
    var plans: seq<TaskGroupPlan>
    var seenEdges: set<(nat, nat)>

    ghost predicate Valid()
      reads this
    {
      && WellFormed(plans)
      && forall s: nat, t: nat :: (s, t) in seenEdges <==> Edge(plans, s, t)
    }

    constructor (groups: seq<TaskGroup>)
      ensures Valid() && |plans| == |groups|
      ensures forall i :: 0 <= i < |groups| ==> plans[i] == TaskGroupPlan(groups[i], [], 0)
    {
      plans := seq(|groups|, i requires 0 <= i < |groups| => TaskGroupPlan(groups[i], [], 0));
      seenEdges := {};
      new;
      assert forall t: nat :: Predecessors(plans, t) == {};
    }

    /** addScheduleEdge. */
    method AddScheduleEdge(s: nat, t: nat)
      requires Valid() && s < |plans| && t < |plans|
      modifies this
      ensures Valid() && |plans| == |old(plans)|
      ensures forall i :: 0 <= i < |plans| ==> plans[i].taskGroup == old(plans[i].taskGroup)
      ensures forall a: nat, b: nat :: Edge(plans, a, b) <==> Edge(old(plans), a, b) || (a == s && b == t && s != t)
    {
      if s == t || (s, t) in seenEdges {
        return;
      }
      hide WellFormed, Edge, WithEdge;
      EdgeAdded(plans, s, t);
      EdgeKeepsWellFormed(plans, s, t);
      SeenWith(plans, seenEdges, s, t);
      seenEdges := seenEdges + {(s, t)};
      plans := WithEdge(plans, s, t);
    }

    /** A nix group learns which system needs it. */
    method AddConsumer(s: nat, system: string)
      requires Valid() && s < |plans|
      modifies this`plans
      ensures Valid() && SameShape(old(plans), plans)
      ensures ConsumersAdded(old(plans[s].taskGroup), plans[s].taskGroup, {system})
      ensures forall i :: 0 <= i < |plans| && i != s ==> plans[i] == old(plans[i])
      ensures forall a: nat, b: nat :: Edge(plans, a, b) <==> Edge(old(plans), a, b)
    {
      hide WellFormed, Edge;
      var consumers := plans[s].taskGroup.nixSoftSkipConsumers;
      if system !in consumers {
        plans := plans[s := plans[s].(taskGroup := plans[s].taskGroup.(nixSoftSkipConsumers := consumers + [system]))];
      }
      ShapeKeepsWellFormed(old(plans), plans);
    }
  }

  /** after is before with the given systems as additional consumers, each listed once. */
  ghost predicate ConsumersAdded(before: TaskGroup, after: TaskGroup, systems: set<string>) {
    && after == before.(nixSoftSkipConsumers := after.nixSoftSkipConsumers)
    && (forall name :: name in after.nixSoftSkipConsumers <==> name in before.nixSoftSkipConsumers || name in systems)
    && (Distinct(before.nixSoftSkipConsumers) ==> Distinct(after.nixSoftSkipConsumers))
  }

  // ------------------------------------------------------------- createPlans

  ghost predicate ConsumersAre(policy: Policy, g: Graph, groups: seq<TaskGroup>, edges: seq<(nat, nat)>, i: nat, before: TaskGroup, after: TaskGroup) {
    && after == before.(nixSoftSkipConsumers := after.nixSoftSkipConsumers)
    && (forall name :: name in after.nixSoftSkipConsumers <==>
          name in before.nixSoftSkipConsumers || Consumes(policy, g, groups, edges, i, name))
    && (Distinct(before.nixSoftSkipConsumers) ==> Distinct(after.nixSoftSkipConsumers))
  }

  lemma LiftedByMore(policy: Policy, g: Graph, groups: seq<TaskGroup>, edges: seq<(nat, nat)>, e: (nat, nat))
    ensures forall s: nat, t: nat :: LiftedBy(policy, g, groups, edges + [e], s, t) <==>
              LiftedBy(policy, g, groups, edges, s, t) || LiftedBy(policy, g, groups, [e], s, t)
  {
    hide Lifts, LeavesNix;
    assert forall x :: x in edges + [e] <==> x in edges || x in [e];
  }

  lemma ConsumesMore(policy: Policy, g: Graph, groups: seq<TaskGroup>, edges: seq<(nat, nat)>, e: (nat, nat), i: nat, system: string)
    ensures Consumes(policy, g, groups, edges + [e], i, system) <==>
              Consumes(policy, g, groups, edges, i, system) || Consumes(policy, g, groups, [e], i, system)
  {
    hide Lifts, LeavesNix;
    assert forall x :: x in edges + [e] <==> x in edges || x in [e];
  }

  lemma ConsumersChain(policy: Policy, g: Graph, groups: seq<TaskGroup>, edges: seq<(nat, nat)>, e: (nat, nat), i: nat,
                       before: TaskGroup, middle: TaskGroup, after: TaskGroup)
    requires ConsumersAre(policy, g, groups, edges, i, before, middle) && ConsumersAre(policy, g, groups, [e], i, middle, after)
    ensures ConsumersAre(policy, g, groups, edges + [e], i, before, after)
  {
    hide Consumes, Distinct;
    forall name ensures name in after.nixSoftSkipConsumers <==>
          name in before.nixSoftSkipConsumers || Consumes(policy, g, groups, edges + [e], i, name) {
      ConsumesMore(policy, g, groups, edges, e, i, name);
    }
  }

  lemma ConsumesNothing(policy: Policy, g: Graph, groups: seq<TaskGroup>, e: (nat, nat), i: nat)
    requires !LeavesNix(policy, g, e) || GroupIndex(groups, KeyAt(g, e.0)) != Some(i) || GroupIndex(groups, KeyAt(g, e.1)).None?
    ensures forall name :: !Consumes(policy, g, groups, [e], i, name)
  {
  }

  lemma ConsumesOne(policy: Policy, g: Graph, groups: seq<TaskGroup>, e: (nat, nat), s: nat, t: nat)
    requires LeavesNix(policy, g, e) && Lifts(g, groups, e, s, t)
    ensures forall name :: Consumes(policy, g, groups, [e], s, name) <==> name == ResolvedAt(policy, g, e.1)
  {
    assert e in [e];
  }

  /** The body of the loop over the package edges. */
  method LiftEdge(builder: PlanBuilder, index: map<string, nat>, policy: Policy, g: Graph, ghost groups: seq<TaskGroup>, e: (nat, nat))
    requires builder.Valid() && |builder.plans| == |groups| && e.0 < |g.vertices| && e.1 < |g.vertices|
    requires forall key :: key in index <==> GroupIndex(groups, key).Some?
    requires forall key :: key in index ==> GroupIndex(groups, key) == Some(index[key]) && index[key] < |groups|
    modifies builder
    ensures builder.Valid() && |builder.plans| == |groups|
    ensures forall a: nat, b: nat :: Edge(builder.plans, a, b) <==> Edge(old(builder.plans), a, b) || LiftedBy(policy, g, groups, [e], a, b)
    ensures forall i: nat :: i < |groups| ==>
              ConsumersAre(policy, g, groups, [e], i, old(builder.plans[i].taskGroup), builder.plans[i].taskGroup)
  {
    hide WellFormed, Edge, GroupIndex, Distinct;
    var sourceKey, targetKey := KeyOf(g.vertices[e.0]), KeyOf(g.vertices[e.1]);
    forall i: nat, name | !(LeavesNix(policy, g, e) && sourceKey in index && targetKey in index && index[sourceKey] == i)
      ensures !Consumes(policy, g, groups, [e], i, name)
    {
      ConsumesNothing(policy, g, groups, e, i);
    }
    if sourceKey !in index || targetKey !in index {
      assert forall a: nat, b: nat :: !LiftedBy(policy, g, groups, [e], a, b);
      return;
    }
    var s, t := index[sourceKey], index[targetKey];
    assert Lifts(g, groups, e, s, t);
    var resolvedSource := policy.resolve(g.vertices[e.0].system);
    var resolvedTarget := policy.resolve(g.vertices[e.1].system);
    assert LeavesNix(policy, g, e) <==> IsNix(resolvedSource) && !IsNix(resolvedTarget);
    forall a: nat, b: nat ensures LiftedBy(policy, g, groups, [e], a, b) <==>
        a == s && b == t && s != t && !(policy.windows && LeavesNix(policy, g, e)) {
      assert e in [e];
    }
    hide LiftedBy;
    if IsNix(resolvedSource) && !IsNix(resolvedTarget) {
      ConsumesOne(policy, g, groups, e, s, t);
      hide Consumes, LeavesNix, Lifts;
      builder.AddConsumer(s, resolvedTarget);
    }
    hide Consumes, LeavesNix, Lifts;
    assert forall i: nat :: i < |groups| ==>
              ConsumersAre(policy, g, groups, [e], i, old(builder.plans[i].taskGroup), builder.plans[i].taskGroup);
    if policy.windows && IsNix(resolvedSource) && !IsNix(resolvedTarget) {
      return;
    }
    hide ConsumersAre;
    builder.AddScheduleEdge(s, t);
  }

  /** The groups of install-like action, nix groups and others apart. */
  method InstallGroups(policy: Policy, groups: seq<TaskGroup>) returns (nix: seq<nat>, others: seq<nat>)
    requires policy.windows
    ensures forall s: nat, t: nat :: Barrier(policy, groups, s, t) <==> s in others && t in nix
    ensures forall i :: i in nix + others ==> i < |groups|
    ensures forall s: nat :: s in nix ==> s !in others
  {
    nix, others := [], [];
    for i := 0 to |groups|
      invariant forall s: nat :: s in others <==> s < i && InstallLike(groups[s].action) && !IsNix(policy.resolve(groups[s].system))
      invariant forall s: nat :: s in nix <==> s < i && InstallLike(groups[s].action) && IsNix(policy.resolve(groups[s].system))
    {
      if !InstallLike(groups[i].action) {
        continue;
      }
      if IsNix(policy.resolve(groups[i].system)) {
        nix := nix + [i];
      } else {
        others := others + [i];
      }
    }
  }

  method AddBarrier(builder: PlanBuilder, nix: seq<nat>, others: seq<nat>)
    requires builder.Valid() && forall i :: i in nix + others ==> i < |builder.plans|
    requires forall s: nat :: s in nix ==> s !in others
    modifies builder
    ensures builder.Valid() && |builder.plans| == |old(builder.plans)|
    ensures forall i :: 0 <= i < |builder.plans| ==> builder.plans[i].taskGroup == old(builder.plans[i].taskGroup)
    ensures forall a: nat, b: nat :: Edge(builder.plans, a, b) <==> Edge(old(builder.plans), a, b) || (a in others && b in nix)
  {
    hide WellFormed, Edge;
    ghost var plans := builder.plans;
    for j := 0 to |nix|
      invariant builder.Valid() && |builder.plans| == |plans|
      invariant forall i :: 0 <= i < |plans| ==> builder.plans[i].taskGroup == plans[i].taskGroup
      invariant forall a: nat, b: nat :: Edge(builder.plans, a, b) <==> Edge(plans, a, b) || (a in others && b in nix[..j])
    {
      var t := nix[j];
      assert t in nix && t in nix + others;
      assert nix[..j + 1] == nix[..j] + [t];
      ghost var before := builder.plans;
      for k := 0 to |others|
        invariant builder.Valid() && |builder.plans| == |plans|
        invariant forall i :: 0 <= i < |plans| ==> builder.plans[i].taskGroup == plans[i].taskGroup
        invariant forall a: nat, b: nat :: Edge(builder.plans, a, b) <==> Edge(before, a, b) || (a in others[..k] && b == t)
      {
        assert others[k] in others && others[k] in nix + others;
        assert others[..k + 1] == others[..k] + [others[k]];
        builder.AddScheduleEdge(others[k], t);
      }
      assert others[..|others|] == others;
    }
    assert nix[..|nix|] == nix;
  }

  /** The plans of the groups: successors are exactly the lifted edges, counters count them, and
      groups change only in the consumers nix groups learn about. */
  ghost predicate PlansOf(policy: Policy, g: Graph, groups: seq<TaskGroup>, plans: seq<TaskGroupPlan>) {
    && WellFormed(plans) && |plans| == |groups|
    && (forall s: nat, t: nat :: Edge(plans, s, t) <==> GroupEdge(policy, g, groups, s, t))
    && (forall i: nat :: i < |groups| ==> ConsumersAre(policy, g, groups, g.edges, i, groups[i], plans[i].taskGroup))
  }

  method CreatePlans(policy: Policy, g: Graph, groups: seq<TaskGroup>) returns (plans: seq<TaskGroupPlan>)
    requires InRange(g)
    ensures PlansOf(policy, g, groups, plans)
  {
    hide WellFormed, Edge, GroupIndex, Distinct, Consumes, LiftedBy, Barrier, ConsumersAre;
    var builder := new PlanBuilder(groups);
    NothingLifted(policy, g, groups, builder.plans);
    var index := IndexPackages(groups);
    forall key | key in index ensures index[key] < |groups| {
      GroupIndexIsLast(groups, key);
    }
    for k := 0 to |g.edges|
      invariant builder.Valid() && |builder.plans| == |groups|
      invariant forall s: nat, t: nat :: Edge(builder.plans, s, t) <==> LiftedBy(policy, g, groups, g.edges[..k], s, t)
      invariant forall i: nat :: i < |groups| ==> ConsumersAre(policy, g, groups, g.edges[..k], i, groups[i], builder.plans[i].taskGroup)
    {
      var e := g.edges[k];
      assert e in g.edges;
      assert g.edges[..k + 1] == g.edges[..k] + [e];
      ghost var before := builder.plans;
      LiftEdge(builder, index, policy, g, groups, e);
      LiftedByMore(policy, g, groups, g.edges[..k], e);
      forall i: nat | i < |groups| ensures ConsumersAre(policy, g, groups, g.edges[..k + 1], i, groups[i], builder.plans[i].taskGroup) {
        ConsumersChain(policy, g, groups, g.edges[..k], e, i, groups[i], before[i].taskGroup, builder.plans[i].taskGroup);
      }
    }
    assert g.edges[..|g.edges|] == g.edges;
    if policy.windows {
      var nix, others := InstallGroups(policy, groups);
      AddBarrier(builder, nix, others);
    } else {
      NoBarrier(policy, groups);
    }
    plans := builder.plans;
  }

  lemma NoBarrier(policy: Policy, groups: seq<TaskGroup>)
    requires !policy.windows
    ensures forall s: nat, t: nat :: !Barrier(policy, groups, s, t)
  {
  }

  lemma NothingLifted(policy: Policy, g: Graph, groups: seq<TaskGroup>, plans: seq<TaskGroupPlan>)
    requires |plans| == |groups| && forall i :: 0 <= i < |groups| ==> plans[i] == TaskGroupPlan(groups[i], [], 0)
    ensures forall s: nat, t: nat :: !Edge(plans, s, t) && !LiftedBy(policy, g, groups, [], s, t)
    ensures forall i: nat :: i < |groups| ==> ConsumersAre(policy, g, groups, [], i, groups[i], plans[i].taskGroup)
  {
  }

  // ---------------------------------------------------- index-topological plan

  /** Package a is left and has the key. */
  ghost predicate LeftAs(windows: bool, filter: Option<Plugins>, packages: seq<Package>, a: nat, key: string) {
    a < |packages| && Kept(windows, filter, packages, a) && KeyOf(packages[a]) == key
  }

  /** Package a joins a later group than every package left under the key. */
  ghost predicate BehindAll(windows: bool, filter: Option<Plugins>, packages: seq<Package>, a: nat, key: string)
    requires a < |packages|
  {
    forall b: nat :: LeftAs(windows, filter, packages, b, key) ==> LaterGroup(windows, packages, b, a)
  }

  /** Packages are left under both keys, and one under the first stands behind all under the second. */
  ghost predicate TurnsAround(windows: bool, filter: Option<Plugins>, packages: seq<Package>, source: string, target: string) {
    && (exists b: nat :: LeftAs(windows, filter, packages, b, target))
    && exists a: nat :: LeftAs(windows, filter, packages, a, source) && BehindAll(windows, filter, packages, a, target)
  }

  /** Of two installed packages, by resolved name the first is not from nix and the second is. */
  predicate BarrierPair(policy: Policy, packages: seq<Package>, b: nat, a: nat) {
    && a < |packages| && b < |packages| && InstallLike(packages[a].action) && InstallLike(packages[b].action)
    && !IsNix(policy.resolve(packages[b].system)) && IsNix(policy.resolve(packages[a].system))
  }

  /** Two packages the barrier keeps apart join groups in the wrong order. */
  ghost predicate BarrierTurns(policy: Policy, filter: Option<Plugins>, packages: seq<Package>) {
    exists a: nat, b: nat :: BarrierPair(policy, packages, b, a) && Kept(true, filter, packages, a) && Kept(true, filter, packages, b)
                             && !LaterGroup(true, packages, b, a)
  }

  /** In the sorted list of packages no package edge that counts and, on Windows, no barrier edge turns around. */
  ghost predicate NothingTurns(policy: Policy, filter: Option<Plugins>, g: Graph, packages: seq<Package>) {
    && (forall e :: e in g.edges && !(policy.windows && LeavesNix(policy, g, e)) ==>
          !TurnsAround(policy.windows, filter, packages, KeyAt(g, e.0), KeyAt(g, e.1)))
    && (policy.windows ==> !BarrierTurns(policy, filter, packages))
  }

  /** The group a key is looked up in is the last of those its packages are left in. */
  lemma LookedUpAt(windows: bool, filter: Option<Plugins>, packages: seq<Package>, groups: seq<TaskGroup>, at: map<nat, nat>, key: string)
    requires Placed(windows, filter, packages, groups, at)
    ensures match GroupIndex(groups, key)
            case None => forall a: nat :: !LeftAs(windows, filter, packages, a, key)
            case Some(last) =>
              && (exists a: nat :: LeftAs(windows, filter, packages, a, key) && a in at && at[a] == last)
              && (forall a: nat :: LeftAs(windows, filter, packages, a, key) ==> a in at && at[a] <= last)
  {
    GroupIndexIsLast(groups, key);
    forall i: nat | i < |groups| ensures Holds(groups[i], key) <==> exists a: nat :: a in at && at[a] == i && KeyOf(packages[a]) == key {
      HoldsIs(windows, filter, packages, groups, at, i, key);
    }
    assert forall a: nat :: a in at <==> a < |packages| && Kept(windows, filter, packages, a);
    assert forall a: nat :: a in at ==> at[a] < |groups|;
    hide Placed, Kept, GroupIndex, Holds;
    match GroupIndex(groups, key)
    case None =>
    case Some(last) =>
      var a: nat :| a in at && at[a] == last && KeyOf(packages[a]) == key;
      assert LeftAs(windows, filter, packages, a, key);
  }

  lemma PlacedLater(windows: bool, filter: Option<Plugins>, packages: seq<Package>, groups: seq<TaskGroup>, at: map<nat, nat>)
    requires Placed(windows, filter, packages, groups, at)
    ensures forall a: nat :: a in at ==> a < |packages|
    ensures forall a: nat, b: nat :: a in at && b in at ==> (at[b] < at[a] <==> LaterGroup(windows, packages, b, a))
  {
    hide Kept, LaterGroup;
  }

  /** Two keys turn around exactly when the group of the first is behind the group of the second. */
  lemma TurnsAroundIs(windows: bool, filter: Option<Plugins>, packages: seq<Package>, groups: seq<TaskGroup>, at: map<nat, nat>, source: string, target: string)
    requires Placed(windows, filter, packages, groups, at)
    ensures TurnsAround(windows, filter, packages, source, target) <==>
            var s, t := GroupIndex(groups, source), GroupIndex(groups, target);
            s.Some? && t.Some? && t.value < s.value
  {
    LookedUpAt(windows, filter, packages, groups, at, source);
    LookedUpAt(windows, filter, packages, groups, at, target);
    PlacedLater(windows, filter, packages, groups, at);
    hide Placed, GroupIndex, LeftAs, LaterGroup;
    var s, t := GroupIndex(groups, source), GroupIndex(groups, target);
    if s.Some? && t.Some? {
      if t.value < s.value {
        var a: nat :| LeftAs(windows, filter, packages, a, source) && a in at && at[a] == s.value;
        assert BehindAll(windows, filter, packages, a, target);
      }
      if TurnsAround(windows, filter, packages, source, target) {
        LastIsBehind(windows, filter, packages, at, source, target, s.value, t.value);
      }
    }
  }

  lemma LastIsBehind(windows: bool, filter: Option<Plugins>, packages: seq<Package>, at: map<nat, nat>, source: string, target: string, s: nat, t: nat)
    requires forall a: nat, b: nat :: a in at && a < |packages| && b in at && b < |packages| ==> (at[b] < at[a] <==> LaterGroup(windows, packages, b, a))
    requires forall a: nat :: LeftAs(windows, filter, packages, a, source) ==> a in at && at[a] <= s
    requires exists b: nat :: LeftAs(windows, filter, packages, b, target) && b in at && at[b] == t
    requires TurnsAround(windows, filter, packages, source, target)
    ensures t < s
  {
    var a: nat :| LeftAs(windows, filter, packages, a, source) && BehindAll(windows, filter, packages, a, target);
    var b: nat :| LeftAs(windows, filter, packages, b, target) && b in at && at[b] == t;
    hide Kept, LaterGroup, KeyOf;
    assert LaterGroup(windows, packages, b, a);
  }

  lemma LiftedForward(policy: Policy, g: Graph, filter: Option<Plugins>, packages: seq<Package>, groups: seq<TaskGroup>, at: map<nat, nat>)
    requires Placed(policy.windows, filter, packages, groups, at)
    ensures (forall s: nat, t: nat :: LiftedBy(policy, g, groups, g.edges, s, t) ==> s < t) <==>
            forall e :: e in g.edges && !(policy.windows && LeavesNix(policy, g, e)) ==>
              !TurnsAround(policy.windows, filter, packages, KeyAt(g, e.0), KeyAt(g, e.1))
  {
    forall e | e in g.edges
      ensures TurnsAround(policy.windows, filter, packages, KeyAt(g, e.0), KeyAt(g, e.1)) <==>
              exists s: nat, t: nat :: Lifts(g, groups, e, s, t) && t < s
    {
      TurnsAroundIs(policy.windows, filter, packages, groups, at, KeyAt(g, e.0), KeyAt(g, e.1));
      LiftsTurned(g, groups, e);
    }
    hide Placed, TurnsAround, LeavesNix, Lifts, GroupIndex;
    if forall s: nat, t: nat :: LiftedBy(policy, g, groups, g.edges, s, t) ==> s < t {
      forall e, s: nat, t: nat | e in g.edges && !(policy.windows && LeavesNix(policy, g, e)) && Lifts(g, groups, e, s, t) ensures s <= t {
        assert s != t ==> LiftedBy(policy, g, groups, g.edges, s, t);
      }
    }
  }

  lemma LiftsTurned(g: Graph, groups: seq<TaskGroup>, e: (nat, nat))
    ensures (exists s: nat, t: nat :: Lifts(g, groups, e, s, t) && t < s) <==>
            var s, t := GroupIndex(groups, KeyAt(g, e.0)), GroupIndex(groups, KeyAt(g, e.1));
            s.Some? && t.Some? && t.value < s.value
  {
    hide GroupIndex, KeyAt;
    var s, t := GroupIndex(groups, KeyAt(g, e.0)), GroupIndex(groups, KeyAt(g, e.1));
    if s.Some? && t.Some? {
      assert Lifts(g, groups, e, s.value, t.value);
    }
  }

  lemma PlacedGroupHas(windows: bool, filter: Option<Plugins>, packages: seq<Package>, groups: seq<TaskGroup>, at: map<nat, nat>, i: nat) returns (a: nat)
    requires Placed(windows, filter, packages, groups, at) && i < |groups|
    ensures a in at && at[a] == i && a < |packages| && groups[i].action == packages[a].action && groups[i].system == packages[a].system
    ensures Kept(windows, filter, packages, a)
  {
    hide Kept, LaterGroup;
    assert MemberAt(packages, at, i, groups[i].packages[0]);
    a :| a in at && a < |packages| && at[a] == i && packages[a] == groups[i].packages[0];
  }

  lemma BarrierForward(policy: Policy, filter: Option<Plugins>, packages: seq<Package>, groups: seq<TaskGroup>, at: map<nat, nat>)
    requires policy.windows && Placed(true, filter, packages, groups, at)
    ensures (forall s: nat, t: nat :: Barrier(policy, groups, s, t) ==> s < t) <==> !BarrierTurns(policy, filter, packages)
  {
    PlacedLater(true, filter, packages, groups, at);
    hide LaterGroup, InstallLike, IsNix, Kept;
    if BarrierTurns(policy, filter, packages) {
      var a: nat, b: nat :| BarrierPair(policy, packages, b, a) && Kept(true, filter, packages, a) && Kept(true, filter, packages, b)
                            && !LaterGroup(true, packages, b, a);
      assert Barrier(policy, groups, at[b], at[a]);
    } else {
      forall s: nat, t: nat | Barrier(policy, groups, s, t) ensures s < t {
        var b := PlacedGroupHas(true, filter, packages, groups, at, s);
        var a := PlacedGroupHas(true, filter, packages, groups, at, t);
        assert BarrierPair(policy, packages, b, a);
      }
    }
  }

  /** A plan is index-topological exactly if in the sorted list of its packages nothing turns around. */
  lemma PlanIsIndexTopological(policy: Policy, g: Graph, filter: Option<Plugins>, packages: seq<Package>, groups: seq<TaskGroup>,
                               at: map<nat, nat>, plans: seq<TaskGroupPlan>)
    requires Placed(policy.windows, filter, packages, groups, at) && PlansOf(policy, g, groups, plans)
    ensures Forward(plans) <==> NothingTurns(policy, filter, g, packages)
  {
    ForwardIs(policy, g, groups, plans);
    hide Placed, PlansOf, LiftedBy, Barrier, TurnsAround, BarrierTurns, LeavesNix, Forward;
    LiftedForward(policy, g, filter, packages, groups, at);
    if policy.windows {
      BarrierForward(policy, filter, packages, groups, at);
    } else {
      NoBarrier(policy, groups);
    }
  }

  lemma ForwardIs(policy: Policy, g: Graph, groups: seq<TaskGroup>, plans: seq<TaskGroupPlan>)
    requires PlansOf(policy, g, groups, plans)
    ensures Forward(plans) <==>
            && (forall s: nat, t: nat :: LiftedBy(policy, g, groups, g.edges, s, t) ==> s < t)
            && (forall s: nat, t: nat :: Barrier(policy, groups, s, t) ==> s < t)
  {
    hide Edge, WellFormed, ConsumersAre, LiftedBy, Barrier;
    if Forward(plans) {
      forall s: nat, t: nat | LiftedBy(policy, g, groups, g.edges, s, t) || Barrier(policy, groups, s, t) ensures s < t {
        assert GroupEdge(policy, g, groups, s, t);
        assert Edge(plans, s, t);
      }
    }
  }

  // ------------------------------------------------------ when nothing turns

  /** Name resolution does not move a stored system into or out of nix. */
  ghost predicate ResolvesNix(policy: Policy, packages: seq<Package>) {
    forall p :: p in packages ==> (IsNix(policy.resolve(p.system)) <==> IsNix(p.system))
  }

  /** No other vertex has the key of v. */
  ghost predicate UniqueAt(g: Graph, v: nat) {
    forall w: nat :: w < |g.vertices| && KeyAt(g, w) == KeyAt(g, v) ==> w == v
  }

  /** The keys of edge sources are unique, and with a filter those of edge targets. */
  ghost predicate UniqueEnds(g: Graph, filter: Option<Plugins>) {
    forall e :: e in g.edges ==> UniqueAt(g, e.0) && (filter.Some? ==> UniqueAt(g, e.1))
  }

  /** Unique keys at the ends of edges suffice, on Windows together with resolution that keeps nix apart. */
  lemma UniqueEndsDoNotTurn(policy: Policy, filter: Option<Plugins>, g: Graph, order: seq<nat>)
    requires InRange(g) && Topological(g, order) && OrderInRange(g, order) && UniqueEnds(g, filter)
    requires policy.windows ==> ResolvesNix(policy, g.vertices)
    ensures NothingTurns(policy, filter, g, PackagesAt(g, order))
  {
    var packages := PackagesAt(g, order);
    forall e | e in g.edges && !(policy.windows && LeavesNix(policy, g, e))
      ensures !TurnsAround(policy.windows, filter, packages, KeyAt(g, e.0), KeyAt(g, e.1))
    {
      forall a: nat | LeftAs(policy.windows, filter, packages, a, KeyAt(g, e.0)) &&
                      exists b: nat :: LeftAs(policy.windows, filter, packages, b, KeyAt(g, e.1))
        ensures !BehindAll(policy.windows, filter, packages, a, KeyAt(g, e.1))
      {
        UniqueEdgeStays(policy, filter, g, order, e, a);
      }
    }
    if policy.windows {
      BarrierStays(policy, filter, packages, g);
    }
    hide TurnsAround, BarrierTurns, LeavesNix;
  }

  lemma UniqueEdgeStays(policy: Policy, filter: Option<Plugins>, g: Graph, order: seq<nat>, e: (nat, nat), a: nat)
    requires InRange(g) && Topological(g, order) && OrderInRange(g, order) && UniqueEnds(g, filter) && e in g.edges
    requires (policy.windows ==> ResolvesNix(policy, g.vertices)) && !(policy.windows && LeavesNix(policy, g, e))
    requires LeftAs(policy.windows, filter, PackagesAt(g, order), a, KeyAt(g, e.0))
    requires exists b: nat :: LeftAs(policy.windows, filter, PackagesAt(g, order), b, KeyAt(g, e.1))
    ensures !BehindAll(policy.windows, filter, PackagesAt(g, order), a, KeyAt(g, e.1))
  {
    var packages := PackagesAt(g, order);
    var b: nat;
    if filter.None? {
      assert e.1 in order;
      b :| b < |order| && order[b] == e.1;
    } else {
      b :| LeftAs(policy.windows, filter, packages, b, KeyAt(g, e.1));
      assert KeyAt(g, order[b]) == KeyAt(g, e.1);
    }
    assert KeyAt(g, order[a]) == KeyAt(g, e.0);
    hide Kept, KeyOf;
    EndsInOrder(g, order, e, a, b);
    assert g.vertices[e.0] in g.vertices && g.vertices[e.1] in g.vertices;
    assert !LaterRun(packages, b, a);
    assert !LaterGroup(policy.windows, packages, b, a);
    assert LeftAs(policy.windows, filter, packages, b, KeyAt(g, e.1));
  }

  lemma BarrierStays(policy: Policy, filter: Option<Plugins>, packages: seq<Package>, g: Graph)
    requires policy.windows && ResolvesNix(policy, g.vertices) && forall p :: p in packages ==> p in g.vertices
    ensures !BarrierTurns(policy, filter, packages)
  {
    hide Kept, InstallLike;
    forall a: nat, b: nat | BarrierPair(policy, packages, b, a) ensures LaterGroup(true, packages, b, a) {
      assert packages[a] in packages && packages[b] in packages;
    }
  }

  lemma UniqueKeysAtEnds(g: Graph, filter: Option<Plugins>)
    requires UniqueKeys(g) && InRange(g)
    ensures UniqueEnds(g, filter)
  {
    forall v: nat | v < |g.vertices| ensures UniqueAt(g, v) {
      hide KeyOf;
    }
  }

  /** The packages of all groups of a plan. */
  function PlannedPackages(plans: seq<TaskGroupPlan>): seq<Package> {
    if plans == [] then [] else PlannedPackages(plans[..|plans| - 1]) + plans[|plans| - 1].taskGroup.packages
  }

  lemma {:induction false} PlansHoldGroups(plans: seq<TaskGroupPlan>, groups: seq<TaskGroup>)
    requires |plans| == |groups| && forall i :: 0 <= i < |plans| ==> plans[i].taskGroup.packages == groups[i].packages
    ensures PlannedPackages(plans) == AllPackages(groups)
  {
    if plans != [] {
      PlansHoldGroups(plans[..|plans| - 1], groups[..|groups| - 1]);
    }
  }

  /** The group of a plan is the group it was made for, but for the consumers it has learnt about. */
  lemma PlansKeepGroups(policy: Policy, g: Graph, groups: seq<TaskGroup>, plans: seq<TaskGroupPlan>)
    requires PlansOf(policy, g, groups, plans)
    ensures |plans| == |groups|
    ensures forall i :: 0 <= i < |plans| ==> plans[i].taskGroup == groups[i].(nixSoftSkipConsumers := plans[i].taskGroup.nixSoftSkipConsumers)
  {
    hide WellFormed, GroupEdge, Edge;
    forall i: nat | i < |plans| ensures plans[i].taskGroup == groups[i].(nixSoftSkipConsumers := plans[i].taskGroup.nixSoftSkipConsumers) {
      assert ConsumersAre(policy, g, groups, g.edges, i, groups[i], plans[i].taskGroup);
    }
  }

  /** Without a filter nothing is lost on the way from the graph to its plans. */
  lemma PlansHoldAll(policy: Policy, g: Graph, order: seq<nat>, groups: seq<TaskGroup>, plans: seq<TaskGroupPlan>)
    requires Topological(g, order) && OrderInRange(g, order) && GroupsOf(policy.windows, None, PackagesAt(g, order), groups)
    requires PlansOf(policy, g, groups, plans)
    ensures multiset(PlannedPackages(plans)) == multiset(g.vertices)
    ensures forall plan :: plan in plans ==> CarriesFlags(plan.taskGroup)
  {
    GroupsHoldAll(g, order, policy.windows, groups);
    RunsCarryFlags(policy.windows, PackagesAt(g, order), groups);
    PlansKeepGroups(policy, g, groups, plans);
    hide PlansOf, GroupsOf, Topological, PackagesAt, OrderInRange, PlannedPackages;
    PlansHoldGroups(plans, groups);
    forall plan | plan in plans ensures CarriesFlags(plan.taskGroup) {
      var i :| 0 <= i < |plans| && plans[i] == plan;
      assert groups[i] in groups;
    }
  }

  /** The groups a graph is executed in: the maximal runs of its sorted packages, partitioned on Windows and filtered
      unless the input was; at says where each package left is. */
  method ExecutableGroups(policy: Policy, g: Graph, topological: seq<nat>, plugins: Plugins, alreadyFiltered: bool)
    returns (groups: seq<TaskGroup>, ghost order: seq<nat>, ghost levels: seq<nat>, ghost at: map<nat, nat>)
    requires InRange(g) && Topological(g, topological)
    ensures LongestPaths(g, levels) && order == StableSort(VertexLess(g, levels), topological) && OrderInRange(g, order) && Topological(g, order)
    ensures GroupsOf(policy.windows, if alreadyFiltered then None else Some(plugins), PackagesAt(g, order), groups)
    ensures Placed(policy.windows, if alreadyFiltered then None else Some(plugins), PackagesAt(g, order), groups, at)
    ensures FlagsPlaced(policy.windows, PackagesAt(g, order), groups, at)
  {
    hide Respects, MaximalRuns, Filters, Placed, UniqueKeys, Topological, LocalExact, LongestPaths, StableSort, NixLast, GroupsOf, CarriesFlags,
         FlagsPlaced;
    groups, order, levels, at := CreateFromGraph(g, topological, policy.windows);
    ghost var packages := PackagesAt(g, order);
    ghost var runs := if policy.windows then RunsBehind(packages, groups) else groups;
    RunsMakeGroups(policy.windows, None, packages, runs, groups, []);
    RunsCarryFlags(policy.windows, packages, groups);
    FlagsArePlaced(policy.windows, packages, groups, at);
    if !alreadyFiltered {
      ghost var origin, before;
      var unfiltered := groups;
      before := at;
      groups, origin := FilterExecutable(plugins, unfiltered);
      at := FilterIsPlaced(policy.windows, plugins, packages, unfiltered, before, groups, origin);
      FlagsStayPlaced(policy.windows, packages, unfiltered, before, groups, at);
      RunsMakeGroups(policy.windows, Some(plugins), packages, runs, groups, origin);
    }
  }

  ghost function RunsBehind(packages: seq<Package>, groups: seq<TaskGroup>): (runs: seq<TaskGroup>)
    requires exists runs :: MaximalRuns(runs, packages) && groups == NixLast(runs)
    ensures MaximalRuns(runs, packages) && groups == NixLast(runs)
  {
    var runs :| MaximalRuns(runs, packages) && groups == NixLast(runs);
    runs
  }

  /** From a package graph to the plans of its executable groups. */
  method BuildPlans(policy: Policy, g: Graph, topological: seq<nat>, plugins: Plugins, alreadyFiltered: bool)
    returns (plans: seq<TaskGroupPlan>, ghost order: seq<nat>, ghost levels: seq<nat>, ghost groups: seq<TaskGroup>, ghost at: map<nat, nat>)
    requires InRange(g) && Topological(g, topological)
    ensures WellFormed(plans)
    ensures LongestPaths(g, levels) && order == StableSort(VertexLess(g, levels), topological) && OrderInRange(g, order)
    ensures var filter, packages := if alreadyFiltered then None else Some(plugins), PackagesAt(g, order);
            && GroupsOf(policy.windows, filter, packages, groups) && Placed(policy.windows, filter, packages, groups, at)
            && FlagsPlaced(policy.windows, packages, groups, at)
            && PlansOf(policy, g, groups, plans)
    ensures alreadyFiltered ==> multiset(PlannedPackages(plans)) == multiset(g.vertices)
    ensures alreadyFiltered ==> forall plan :: plan in plans ==> CarriesFlags(plan.taskGroup)
    ensures Forward(plans) <==> NothingTurns(policy, if alreadyFiltered then None else Some(plugins), g, PackagesAt(g, order))
    ensures UniqueKeys(g) && (policy.windows ==> ResolvesNix(policy, g.vertices)) ==> Forward(plans)
  {
    ghost var filter := if alreadyFiltered then None else Some(plugins);
    var executable;
    executable, order, levels, at := ExecutableGroups(policy, g, topological, plugins, alreadyFiltered);
    groups := executable;
    plans := CreatePlans(policy, g, executable);
    assert WellFormed(plans);
    hide WellFormed, Placed, PlansOf, UniqueKeys, ResolvesNix, Topological, NothingTurns, Forward, UniqueEnds, LongestPaths, StableSort, GroupsOf,
         CarriesFlags, FlagsPlaced, PlannedPackages;
    if alreadyFiltered {
      PlansHoldAll(policy, g, order, groups, plans);
    }
    PlanIsIndexTopological(policy, g, filter, PackagesAt(g, order), groups, at, plans);
    if UniqueKeys(g) && (policy.windows ==> ResolvesNix(policy, g.vertices)) {
      UniqueKeysAtEnds(g, filter);
      UniqueEndsDoNotTurn(policy, filter, g, order);
    }
  }
}
