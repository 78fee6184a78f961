// Inputs on which a plan has an edge from a later to an earlier group.
module TurningPlans {
  import opened Sequences
  import opened Sorting
  import opened Text
  import opened Packages
  import opened VertexOrder
  import opened TaskPlans
  import opened TaskGroups
  import opened TaskGraphBuilder
  import opened Planner

  // ------------------------------------------- a local target and its namesake

  /** A file installed with apt needs a package from npm, which in turn needs the apt package of the file's name. */
  const LOCAL := Package(INSTALL, "apt", "foo", "", "/tmp/foo", true, [], true)
  const BETWEEN := Package(INSTALL, "npm", "v", "", "", false, [], false)
  const NAMESAKE := Package(INSTALL, "apt", "foo", "", "", false, [], false)

  const LOCAL_GRAPH := Graph([LOCAL, BETWEEN, NAMESAKE], [(2, 1), (1, 0)])

  /** Bundles with those requirements, all of them missing. */
  function LocalEnvironment(): Environment {
    Environment(_ => false,
                system => if system == "apt" then Some([BETWEEN]) else if system == "npm" then Some([NAMESAKE]) else None,
                packages => packages)
  }

  lemma LocalDependencies()
    ensures DependenciesOf(LocalEnvironment(), LOCAL) == [BETWEEN]
    ensures DependenciesOf(LocalEnvironment(), BETWEEN) == [NAMESAKE]
  {
  }

  lemma LocalVertices()
    ensures DistinctVertices(LOCAL_GRAPH.vertices) && DirectExact(LOCAL_GRAPH.vertices, LOCAL_GRAPH.vertices)
  {
    var vertices := LOCAL_GRAPH.vertices;
    assert vertices[0] == LOCAL && vertices[1] == BETWEEN && vertices[2] == NAMESAKE;
    DistinctStand(vertices);
  }

  lemma DistinctStand(vertices: seq<Package>)
    requires DistinctVertices(vertices)
    ensures DirectExact(vertices, vertices)
  {
    forall v | 0 <= v < |vertices| ensures Stands(vertices, vertices[v]) && HasVertex(vertices, vertices[v]) {
      SameAsItself(vertices[v]);
      assert forall u :: 0 <= u < |vertices| && SamePackage(vertices[u], vertices[v]) ==> u == v;
      assert FirstAs(vertices, v, vertices[v]);
    }
  }

  lemma LocalEdges()
    ensures forall e :: e in LOCAL_GRAPH.edges ==> Justified(LocalEnvironment(), LOCAL_GRAPH.vertices, [LOCAL, BETWEEN], e)
    ensures AllLinked(LocalEnvironment(), LOCAL_GRAPH.vertices, LOCAL_GRAPH.edges, [LOCAL, BETWEEN])
  {
    var env, vertices, edges, expanded := LocalEnvironment(), LOCAL_GRAPH.vertices, LOCAL_GRAPH.edges, [LOCAL, BETWEEN];
    LocalDependencies();
    assert vertices[0] == LOCAL && vertices[1] == BETWEEN && vertices[2] == NAMESAKE;
    assert expanded[0] == LOCAL && expanded[1] == BETWEEN && edges[0] == (2, 1) && edges[1] == (1, 0);
    hide DependenciesOf, LocalEnvironment, SamePackage, Stripped;
    OneEdge(env, vertices, edges, expanded, 1, 0, BETWEEN, LOCAL);
    OneEdge(env, vertices, edges, expanded, 2, 1, NAMESAKE, BETWEEN);
    hide Linked, Justified;
  }

  lemma OneEdge(env: Environment, vertices: seq<Package>, edges: seq<(nat, nat)>, expanded: seq<Package>, u: nat, v: nat, d: Package, p: Package)
    requires u < |vertices| && v < |vertices| && vertices[u] == d && vertices[v] == p && (u, v) in edges
    requires p in expanded && DependenciesOf(env, p) == [d]
    ensures Justified(env, vertices, expanded, (u, v)) && Linked(vertices, edges, d, p)
  {
    SameAsItself(p);
    SameAsItself(d);
    assert [d][0] == d;
    hide DependenciesOf, SamePackage, Stripped;
  }

  lemma LocalReached()
    ensures Reached(LocalEnvironment(), [(LOCAL, true)], [LOCAL, BETWEEN]) && Covered(LocalEnvironment(), [LOCAL, BETWEEN], [])
    ensures forall p :: p in LOCAL_GRAPH.vertices ==> Met(LocalEnvironment(), [(LOCAL, true)], [LOCAL, BETWEEN], p)
  {
    var env, expanded := LocalEnvironment(), [LOCAL, BETWEEN];
    LocalDependencies();
    assert expanded[0] == LOCAL && expanded[1] == BETWEEN && [BETWEEN][0] == BETWEEN && [NAMESAKE][0] == NAMESAKE;
    assert expanded[..1] == [LOCAL] && [LOCAL][0] == LOCAL && [(LOCAL, true)][0] == (LOCAL, true);
    hide DependenciesOf, LocalEnvironment;
    assert BETWEEN in DependenciesOf(env, LOCAL) && NAMESAKE in DependenciesOf(env, BETWEEN);
    assert NeededBy(env, [LOCAL], BETWEEN) && NeededBy(env, expanded, BETWEEN) && NeededBy(env, expanded, NAMESAKE);
    assert LOCAL in expanded && BETWEEN in expanded;
    assert SystemExpanded(expanded, "npm") && SystemExpanded(expanded, "apt");
  }

  /** The planner turns the request for the file into this graph. */
  lemma LocalTargetIsExpanded()
    ensures ExpandedGraph(LocalEnvironment(), LOCAL_GRAPH, [(LOCAL, true)], LOCAL_GRAPH.vertices, [LOCAL, BETWEEN])
  {
    LocalVertices();
    LocalEdges();
    LocalReached();
    hide LocalEnvironment, DirectExact, DistinctVertices, Justified, AllLinked, Covered, Reached, Met;
    var expanded := [LOCAL, BETWEEN];
    assert LOCAL_GRAPH.vertices[0] == LOCAL && LOCAL_GRAPH.vertices[1] == BETWEEN && expanded[0] == LOCAL && expanded[1] == BETWEEN;
  }

  lemma ChainOrder(order: seq<nat>)
    requires Topological(LOCAL_GRAPH, order)
    ensures order == [2, 1, 0]
  {
    DistinctLength(order, 3);
    assert (2, 1) in LOCAL_GRAPH.edges && (1, 0) in LOCAL_GRAPH.edges;
    assert Before(order, 2, 1) && Before(order, 1, 0);
  }

  lemma SortedPackages(order: seq<nat>)
    requires Topological(LOCAL_GRAPH, order) && OrderInRange(LOCAL_GRAPH, order)
    ensures PackagesAt(LOCAL_GRAPH, order) == [NAMESAKE, BETWEEN, LOCAL]
  {
    ChainOrder(order);
    hide Topological;
  }

  /** Its plan is cyclic: both packages of the name are looked up in the later group, so the edge from the first
      one turns around. */
  lemma DuplicateKeysTurnAround(policy: Policy, order: seq<nat>, groups: seq<TaskGroup>, plans: seq<TaskGroupPlan>)
    requires Topological(LOCAL_GRAPH, order) && !policy.windows && OrderInRange(LOCAL_GRAPH, order)
    requires MaximalRuns(groups, PackagesAt(LOCAL_GRAPH, order)) && PlansOf(policy, LOCAL_GRAPH, groups, plans)
    ensures exists s: nat, t: nat :: Edge(plans, s, t) && Edge(plans, t, s)
    ensures !NothingTurns(policy, None, LOCAL_GRAPH, PackagesAt(LOCAL_GRAPH, order))
  {
    SortedPackages(order);
    hide Topological, MaximalRuns, NothingTurns, Placed, PlansOf, PackagesAt, Edge;
    var packages := PackagesAt(LOCAL_GRAPH, order);
    var at := RunsArePlaced(groups, packages);
    PlanIsIndexTopological(policy, LOCAL_GRAPH, None, packages, groups, at, plans);
    var s, t := LookedUp(packages, groups, at);
    CycleEdges(policy, groups, plans, s, t);
  }

  lemma CycleEdges(policy: Policy, groups: seq<TaskGroup>, plans: seq<TaskGroupPlan>, s: nat, t: nat)
    requires !policy.windows && PlansOf(policy, LOCAL_GRAPH, groups, plans) && t < s
    requires GroupIndex(groups, KeyOf(NAMESAKE)) == Some(s) && GroupIndex(groups, KeyOf(LOCAL)) == Some(s)
    requires GroupIndex(groups, KeyOf(BETWEEN)) == Some(t)
    ensures Edge(plans, s, t) && Edge(plans, t, s)
  {
    var g := LOCAL_GRAPH;
    assert KeyAt(g, 2) == KeyOf(NAMESAKE) && KeyAt(g, 1) == KeyOf(BETWEEN) && KeyAt(g, 0) == KeyOf(LOCAL);
    assert g.edges[0] == (2, 1) && g.edges[1] == (1, 0);
    hide GroupIndex, KeyOf, KeyAt, WellFormed, ConsumersAre;
    assert Lifts(g, groups, (2, 1), s, t) && Lifts(g, groups, (1, 0), t, s);
    hide Lifts, LeavesNix;
    assert (2, 1) in g.edges && (1, 0) in g.edges;
    assert LiftedBy(policy, g, groups, g.edges, s, t) && LiftedBy(policy, g, groups, g.edges, t, s);
    hide LiftedBy, Edge, Barrier;
    assert GroupEdge(policy, g, groups, s, t) && GroupEdge(policy, g, groups, t, s);
  }

  lemma ThreeRuns(packages: seq<Package>)
    requires packages == [NAMESAKE, BETWEEN, LOCAL]
    ensures LaterGroup(false, packages, 0, 1) && LaterGroup(false, packages, 1, 2)
  {
    assert SplitsAt(packages, 1) && SplitsAt(packages, 2);
  }

  lemma ThreeKeys()
    ensures KeyOf(LOCAL) == KeyOf(NAMESAKE) != KeyOf(BETWEEN)
  {
    assert KeyOf(LOCAL)[0] == 'a' && KeyOf(BETWEEN)[0] == 'n';
  }

  lemma LookedUp(packages: seq<Package>, groups: seq<TaskGroup>, at: map<nat, nat>) returns (s: nat, t: nat)
    requires packages == [NAMESAKE, BETWEEN, LOCAL] && Placed(false, None, packages, groups, at)
    ensures GroupIndex(groups, KeyOf(NAMESAKE)) == Some(s) && GroupIndex(groups, KeyOf(LOCAL)) == Some(s)
    ensures GroupIndex(groups, KeyOf(BETWEEN)) == Some(t) && t < s
  {
    PlacedLater(false, None, packages, groups, at);
    ThreeRuns(packages);
    ThreeKeys();
    hide KeyOf, LaterGroup, GroupIndex;
    assert packages[0] == NAMESAKE && packages[1] == BETWEEN && packages[2] == LOCAL;
    assert LeftAs(false, None, packages, 0, KeyOf(LOCAL)) && LeftAs(false, None, packages, 1, KeyOf(BETWEEN)) && LeftAs(false, None, packages, 2, KeyOf(LOCAL));
    assert forall a: nat :: LeftAs(false, None, packages, a, KeyOf(LOCAL)) ==> a == 0 || a == 2;
    assert forall a: nat :: LeftAs(false, None, packages, a, KeyOf(BETWEEN)) ==> a == 1;
    LookedUpAt(false, None, packages, groups, at, KeyOf(LOCAL));
    LookedUpAt(false, None, packages, groups, at, KeyOf(BETWEEN));
    hide Placed, LeftAs;
    s, t := at[2], at[1];
  }

  // --------------------------------------------------- another spelling of nix

  /** Two unrelated packages, the first stored under another spelling of nix. */
  ghost predicate SpelledOtherwise(policy: Policy, g: Graph) {
    && policy.windows && |g.vertices| == 2 && g.edges == []
    && g.vertices[0].action == INSTALL && g.vertices[1].action == INSTALL
    && EnsureOrder(g.vertices[0].flags) == EnsureOrder(g.vertices[1].flags) == None
    && StringLess(g.vertices[0].system, g.vertices[1].system)
    && !IsNix(g.vertices[0].system) && IsNix(policy.resolve(g.vertices[0].system))
    && !IsNix(g.vertices[1].system) && !IsNix(policy.resolve(g.vertices[1].system))
  }

  lemma NoEdgesNoLevels(g: Graph, levels: seq<nat>)
    requires g.edges == [] && LongestPaths(g, levels)
    ensures forall v :: 0 <= v < |levels| ==> levels[v] == 0
  {
    forall v: nat | v < |levels| ensures levels[v] == 0 {
      assert HasPath(g, v, levels[v]);
      var path :| PathInto(g, path, v) && |path| == levels[v] + 1;
      LongPathHasEdge(g, path, v);
    }
  }

  lemma LongPathHasEdge(g: Graph, path: seq<nat>, v: nat)
    requires PathInto(g, path, v)
    ensures |path| > 1 ==> |g.edges| > 0
  {
    if |path| > 1 {
      var k := 0;
      assert (path[k], path[k + 1]) in g.edges;
    }
  }

  lemma FirstIsLess(policy: Policy, g: Graph, levels: seq<nat>)
    requires SpelledOtherwise(policy, g) && LongestPaths(g, levels)
    ensures VertexLess(g, levels)(0, 1)
  {
    NoEdgesNoLevels(g, levels);
    hide StringLess, EnsureOrder;
  }

  lemma InOrder(order: seq<nat>)
    requires Distinct(order) && (forall v: nat :: v in order <==> v < 2) && Before(order, 0, 1)
    ensures order == [0, 1]
  {
    DistinctLength(order, 2);
  }

  lemma FirstStaysFirst(policy: Policy, g: Graph, topological: seq<nat>, levels: seq<nat>, order: seq<nat>)
    requires SpelledOtherwise(policy, g) && Topological(g, topological) && LongestPaths(g, levels)
    requires order == StableSort(VertexLess(g, levels), topological)
    ensures order == [0, 1]
  {
    FirstIsLess(policy, g, levels);
    var less := VertexLess(g, levels);
    assert 0 in topological && 1 in topological;
    hide VertexLess, StableSort, LongestPaths;
    VertexLessIsStrictWeak(g, levels);
    StableSortSorts(less, topological);
    SamePermutation(topological, order);
    StableSortPlaces(less, topological, 0, 1);
    hide Before, StrictWeakOrder, SpelledOtherwise;
    InOrder(order);
  }

  /** The partition compares stored names and leaves both groups where they are; the barrier compares resolved
      ones, and its edge to the first group turns around. */
  lemma StoredNamesTurnAround(policy: Policy, g: Graph, topological: seq<nat>, levels: seq<nat>, order: seq<nat>)
    requires SpelledOtherwise(policy, g) && Topological(g, topological) && LongestPaths(g, levels)
    requires order == StableSort(VertexLess(g, levels), topological) && OrderInRange(g, order)
    ensures !NothingTurns(policy, None, g, PackagesAt(g, order))
  {
    FirstStaysFirst(policy, g, topological, levels, order);
    hide StableSort, LongestPaths, StringLess, EnsureOrder, Topological;
    var packages := PackagesAt(g, order);
    assert packages[0] == g.vertices[0] && packages[1] == g.vertices[1];
    assert BarrierPair(policy, packages, 1, 0);
    assert !LaterRun(packages, 1, 0);
    assert BarrierTurns(policy, None, packages);
  }
}
