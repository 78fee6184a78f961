// TaskGraphBuilder::orderedVertices: levels of a package graph, and the vertices
// stably sorted by level, ensure order and system.
module VertexOrder {
  import opened Sequences
  import opened Sorting
  import opened Packages
  import opened Text

  /** Edges in the order boost::edges lists them; an edge leads from a dependency to its user. */
  datatype Graph = Graph(vertices: seq<Package>, edges: seq<(nat, nat)>)

  predicate InRange(g: Graph) {
    forall e :: e in g.edges ==> e.0 < |g.vertices| && e.1 < |g.vertices|
  }

  ghost predicate Topological(g: Graph, order: seq<nat>) {
    && Distinct(order)
    && (forall v: nat :: v in order <==> v < |g.vertices|)
    && (forall e :: e in g.edges ==> Before(order, e.0, e.1))
  }

  // ----------------------------------------------------------------- levels

  /** A path along edges that ends in v. */
  ghost predicate PathInto(g: Graph, path: seq<nat>, v: nat) {
    && |path| > 0 && path[|path| - 1] == v
    && forall k :: 0 <= k < |path| - 1 ==> (path[k], path[k + 1]) in g.edges
  }

  ghost predicate HasPath(g: Graph, v: nat, length: nat) {
    exists path :: PathInto(g, path, v) && |path| == length + 1
  }

  /** levels[v] is the length of a longest path into v. */
  ghost predicate LongestPaths(g: Graph, levels: seq<nat>) {
    && |levels| == |g.vertices|
    && forall v: nat :: v < |levels| ==> HasPath(g, v, levels[v]) && forall length: nat :: HasPath(g, v, length) ==> length <= levels[v]
  }

  lemma ExtendPath(g: Graph, u: nat, v: nat, length: nat)
    requires HasPath(g, u, length) && (u, v) in g.edges
    ensures HasPath(g, v, length + 1)
  {
    var path :| PathInto(g, path, u) && |path| == length + 1;
    assert PathInto(g, path + [v], v);
  }

  lemma {:induction false} PathIsBounded(g: Graph, levels: seq<nat>, path: seq<nat>, v: nat)
    requires InRange(g) && |levels| == |g.vertices| && v < |levels| && PathInto(g, path, v)
    requires forall e :: e in g.edges ==> levels[e.0] < levels[e.1]
    ensures |path| <= levels[v] + 1
  {
    var n := |path|;
    if n > 1 {
      assert (path[n - 2], path[n - 1]) in g.edges;
      PathIsBounded(g, levels, path[..n - 1], path[n - 2]);
    }
  }

  /** The loop over the out-edges of v. */
  method RaiseTargets(g: Graph, levels: array<nat>, v: nat)
    requires InRange(g) && levels.Length == |g.vertices| && v < |g.vertices| && (v, v) !in g.edges
    modifies levels
    ensures forall w: nat :: w < levels.Length ==>
              levels[w] == if (v, w) in g.edges && old(levels[w]) <= old(levels[v]) then old(levels[v]) + 1 else old(levels[w])
  {
    for j := 0 to |g.edges|
      invariant forall w: nat :: w < levels.Length ==>
        levels[w] == if (v, w) in g.edges[..j] && old(levels[w]) <= old(levels[v]) then old(levels[v]) + 1 else old(levels[w])
    {
      var (source, target) := g.edges[j];
      assert g.edges[..j + 1] == g.edges[..j] + [(source, target)];
      assert (source, target) in g.edges;
      if source == v && levels[target] <= levels[v] {
        levels[target] := levels[v] + 1;
      }
    }
    assert g.edges[..|g.edges|] == g.edges;
  }

  lemma NotYetVisited(g: Graph, order: seq<nat>, k: nat, w: nat)
    requires Topological(g, order) && k < |order| && (order[k], w) in g.edges
    ensures w !in order[..k + 1]
  {
    var e := (order[k], w);
    assert Before(order, e.0, e.1);
  }

  /** One pass over the vertices in topological order computes all longest paths. */
  method ComputeLevels(g: Graph, order: seq<nat>) returns (result: seq<nat>)
    requires InRange(g) && Topological(g, order)
    ensures LongestPaths(g, result)
    ensures forall e :: e in g.edges ==> result[e.0] < result[e.1]
  {
    var levels := new nat[|g.vertices|](_ => 0);
    forall v: nat | v < |g.vertices| ensures HasPath(g, v, 0) {
      assert PathInto(g, [v], v);
    }
    for k := 0 to |order|
      invariant levels.Length == |g.vertices|
      invariant forall v: nat :: v < levels.Length ==> HasPath(g, v, levels[v])
      invariant forall e :: e in g.edges && e.0 in order[..k] ==> levels[e.0] < levels[e.1]
    {
      var v := order[k];
      assert order[..k + 1] == order[..k] + [v];
      forall w: nat | (v, w) in g.edges ensures w !in order[..k + 1] {
        NotYetVisited(g, order, k, w);
      }
      assert v in order && v in order[..k + 1] && v < |g.vertices|;
      ghost var before := levels[..];
      RaiseTargets(g, levels, v);
      forall w: nat | w < levels.Length ensures HasPath(g, w, levels[w]) {
        if levels[w] != before[w] {
          ExtendPath(g, v, w, before[v]);
        }
      }
    }
    result := levels[..];
    assert order[..|order|] == order;
    forall v: nat, length: nat | v < |result| && HasPath(g, v, length) ensures length <= result[v] {
      var path :| PathInto(g, path, v) && |path| == length + 1;
      PathIsBounded(g, result, path, v);
    }
  }

  // ------------------------------------------------------------- comparator

  const ENSURE_ORDER_PREFIX := "__reqpack-internal-ensure-order="

  /** internal_ensure_order: the number in the first flag with the prefix. */
  function EnsureOrder(flags: seq<string>): Option<nat> {
    if flags == [] then None
    else if ENSURE_ORDER_PREFIX <= flags[0] then ParseUnsigned(flags[0][|ENSURE_ORDER_PREFIX|..])
    else EnsureOrder(flags[1..])
  }

  /** What the comparator looks at. */
  datatype Rank = Rank(level: nat, ensureOrder: Option<nat>, system: string)

  predicate RankLess(a: Rank, b: Rank) {
    if a.level != b.level then a.level < b.level
    else if a.ensureOrder.Some? != b.ensureOrder.Some? then a.ensureOrder.Some?
    else if a.ensureOrder.Some? && a.ensureOrder.value != b.ensureOrder.value then a.ensureOrder.value < b.ensureOrder.value
    else StringLess(a.system, b.system)
  }

  function RankOf(g: Graph, levels: seq<nat>, v: nat): Rank {
    if v < |g.vertices| && v < |levels| then Rank(levels[v], EnsureOrder(g.vertices[v].flags), g.vertices[v].system)
    else Rank(0, None, "")
  }

  function VertexLess(g: Graph, levels: seq<nat>): (nat, nat) -> bool {
    (a: nat, b: nat) => RankLess(RankOf(g, levels, a), RankOf(g, levels, b))
  }

  lemma RankTransitive(a: Rank, b: Rank, c: Rank)
    requires RankLess(a, b) && RankLess(b, c)
    ensures RankLess(a, c)
  {
    hide StringLess;
    if StringLess(a.system, b.system) && StringLess(b.system, c.system) {
      StringLessTransitive(a.system, b.system, c.system);
    }
  }

  lemma RankNegativelyTransitive(a: Rank, b: Rank, c: Rank)
    requires !RankLess(a, b) && !RankLess(b, c)
    ensures !RankLess(a, c)
  {
    RankTotal(a, b);
    RankTotal(b, c);
    RankTotal(a, c);
    if RankLess(b, a) && RankLess(c, b) {
      RankTransitive(c, b, a);
    }
    if RankLess(a, c) && RankLess(c, a) {
      RankTransitive(a, c, a);
      RankIrreflexive(a);
    }
    RankIrreflexive(a);
  }

  lemma RankIrreflexive(a: Rank)
    ensures !RankLess(a, a)
  {
    StringLessIrreflexive(a.system);
  }

  lemma RankTotal(a: Rank, b: Rank)
    ensures a == b || RankLess(a, b) || RankLess(b, a)
  {
    hide StringLess;
    StringLessTotal(a.system, b.system);
  }

  /** The comparator meets the demand of std::stable_sort on every graph. */
  lemma VertexLessIsStrictWeak(g: Graph, levels: seq<nat>)
    ensures StrictWeakOrder(VertexLess(g, levels))
  {
    var less := VertexLess(g, levels);
    forall a: nat ensures !less(a, a) {
      RankIrreflexive(RankOf(g, levels, a));
    }
    forall a: nat, b: nat, c: nat | less(a, b) && less(b, c) ensures less(a, c) {
      RankTransitive(RankOf(g, levels, a), RankOf(g, levels, b), RankOf(g, levels, c));
    }
    forall a: nat, b: nat, c: nat | !less(a, b) && !less(b, c) ensures !less(a, c) {
      RankNegativelyTransitive(RankOf(g, levels, a), RankOf(g, levels, b), RankOf(g, levels, c));
    }
  }

  // ------------------------------------------------ what the comparator means

  predicate IsOrderFlag(flag: string) {
    ENSURE_ORDER_PREFIX <= flag
  }

  /** The first order flag gives the number i. */
  ghost predicate HasOrder(flags: seq<string>, i: nat) {
    i < TWO_TO_64 && exists k :: 0 <= k < |flags| && flags[k] == ENSURE_ORDER_PREFIX + Decimal(i) && forall j :: 0 <= j < k ==> !IsOrderFlag(flags[j])
  }

  ghost predicate NoOrder(flags: seq<string>) {
    forall flag :: flag in flags ==> !IsOrderFlag(flag)
  }

  lemma {:induction false} OrderIs(flags: seq<string>, i: nat)
    ensures HasOrder(flags, i) ==> EnsureOrder(flags) == Some(i)
    ensures NoOrder(flags) ==> EnsureOrder(flags) == None
  {
    if flags != [] {
      if HasOrder(flags, i) {
        var k :| 0 <= k < |flags| && flags[k] == ENSURE_ORDER_PREFIX + Decimal(i) && forall j :: 0 <= j < k ==> !IsOrderFlag(flags[j]);
        if k == 0 {
          assert flags[0][|ENSURE_ORDER_PREFIX|..] == Decimal(i);
          UnsignedRoundTrip(i);
        } else {
          assert flags[1..][k - 1] == flags[k] && forall j :: 0 <= j < k - 1 ==> !IsOrderFlag(flags[1..][j]);
          assert HasOrder(flags[1..], i);
          assert !IsOrderFlag(flags[0]);
        }
      }
      if NoOrder(flags) {
        assert flags[0] in flags && forall flag :: flag in flags[1..] ==> flag in flags;
      }
      OrderIs(flags[1..], i);
    }
  }

  /** What decides between two vertices of one level by their order flags alone: a lower number comes first, any number
      before none. */
  ghost predicate OrderedBefore(a: seq<string>, b: seq<string>) {
    (exists i: nat :: HasOrder(a, i) && NoOrder(b)) || exists i: nat, j: nat :: i < j && HasOrder(a, i) && HasOrder(b, j)
  }

  ghost predicate SameOrder(a: seq<string>, b: seq<string>) {
    (NoOrder(a) && NoOrder(b)) || exists i: nat :: HasOrder(a, i) && HasOrder(b, i)
  }

  /** Vertex a has to stand before vertex b. */
  ghost predicate ComesFirst(g: Graph, levels: seq<nat>, topological: seq<nat>, a: nat, b: nat)
    requires a < |g.vertices| == |levels| && b < |g.vertices|
  {
    var p, q := g.vertices[a], g.vertices[b];
    || levels[a] < levels[b]
    || (levels[a] == levels[b] && OrderedBefore(p.flags, q.flags))
    || (levels[a] == levels[b] && SameOrder(p.flags, q.flags) && StringLess(p.system, q.system))
    || (levels[a] == levels[b] && SameOrder(p.flags, q.flags) && p.system == q.system && Before(topological, a, b))
  }

  ghost predicate InEnsureOrder(g: Graph, levels: seq<nat>, topological: seq<nat>, order: seq<nat>) {
    |levels| == |g.vertices| &&
    forall a: nat, b: nat :: a < |g.vertices| && b < |g.vertices| && ComesFirst(g, levels, topological, a, b) ==> Before(order, a, b)
  }

  lemma OrdersCompare(a: seq<string>, b: seq<string>)
    ensures OrderedBefore(a, b) ==> EnsureOrder(a).Some? && (EnsureOrder(b).None? || EnsureOrder(a).value < EnsureOrder(b).value)
    ensures SameOrder(a, b) ==> EnsureOrder(a) == EnsureOrder(b)
  {
    forall i: nat ensures (HasOrder(a, i) ==> EnsureOrder(a) == Some(i)) && (NoOrder(a) ==> EnsureOrder(a) == None) {
      OrderIs(a, i);
    }
    forall i: nat ensures (HasOrder(b, i) ==> EnsureOrder(b) == Some(i)) && (NoOrder(b) ==> EnsureOrder(b) == None) {
      OrderIs(b, i);
    }
    OrderIs(a, 0);
    OrderIs(b, 0);
    hide HasOrder, NoOrder, EnsureOrder;
  }

  lemma FirstIsPlaced(g: Graph, levels: seq<nat>, topological: seq<nat>, a: nat, b: nat)
    requires Topological(g, topological) && a < |g.vertices| == |levels| && b < |g.vertices| && ComesFirst(g, levels, topological, a, b)
    ensures Before(StableSort(VertexLess(g, levels), topological), a, b)
  {
    var less := VertexLess(g, levels);
    var p, q := g.vertices[a], g.vertices[b];
    OrdersCompare(p.flags, q.flags);
    StringLessIrreflexive(p.system);
    assert a in topological && b in topological;
    assert Distinct(topological);
    VertexLessIsStrictWeak(g, levels);
    hide OrderedBefore, SameOrder, StableSort, EnsureOrder, StringLess, Topological, Before, StrictWeakOrder;
    assert less(a, b) || (!less(b, a) && Before(topological, a, b));
    hide VertexLess, RankLess, RankOf;
    StableSortPlaces(less, topological, a, b);
  }

  /** In the sorted order vertices stand by level; within a level the lower order number first, numbers before none, then
      the lesser system; and what is equal in all this stands as in the topological order. */
  lemma SortKeepsOrders(g: Graph, levels: seq<nat>, topological: seq<nat>)
    requires Topological(g, topological) && |levels| == |g.vertices|
    ensures InEnsureOrder(g, levels, topological, StableSort(VertexLess(g, levels), topological))
  {
    forall a: nat, b: nat | a < |g.vertices| && b < |g.vertices| && ComesFirst(g, levels, topological, a, b)
      ensures Before(StableSort(VertexLess(g, levels), topological), a, b)
    {
      FirstIsPlaced(g, levels, topological, a, b);
    }
  }

  // ----------------------------------------------------------------- ordering

  /** orderedVertices, from whatever order boost::topological_sort produced. */
  method OrderedVertices(g: Graph, topological: seq<nat>) returns (order: seq<nat>, ghost levels: seq<nat>)
    requires InRange(g) && Topological(g, topological)
    ensures LongestPaths(g, levels)
    ensures order == StableSort(VertexLess(g, levels), topological)
    ensures Topological(g, order) && InEnsureOrder(g, levels, topological, order)
  {
    if |g.vertices| == 0 {
      DistinctLength(topological, 0);
      return [], [];
    }
    var computed := ComputeLevels(g, topological);
    levels := computed;
    order := StableSort(VertexLess(g, computed), topological);
    SortKeepsTopological(g, topological, levels);
    SortKeepsOrders(g, levels, topological);
  }

  lemma SortKeepsTopological(g: Graph, topological: seq<nat>, levels: seq<nat>)
    requires InRange(g) && Topological(g, topological) && |levels| == |g.vertices|
    requires forall e :: e in g.edges ==> levels[e.0] < levels[e.1]
    ensures Topological(g, StableSort(VertexLess(g, levels), topological))
  {
    var less := VertexLess(g, levels);
    VertexLessIsStrictWeak(g, levels);
    var order := StableSort(less, topological);
    StableSortSorts(less, topological);
    SamePermutation(topological, order);
    forall e | e in g.edges ensures Before(order, e.0, e.1) {
      StableSortPlaces(less, topological, e.0, e.1);
    }
  }
}
