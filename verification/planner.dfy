// Planner: the package graph a request expands to.
module Planner {
  import opened Sequences
  import opened Packages
  import opened VertexOrder

  /** What expansion asks of the outside: gateway systems, the normalized and resolved requirements of
      an installed plugin bundle, and which of a list of packages are missing. */
  datatype Environment = Environment(gateway: string -> bool, bundle: string -> Option<seq<Package>>,
                                     missing: seq<Package> -> seq<Package>)

  ghost predicate FiltersOnly(env: Environment) {
    forall packages: seq<Package>, p :: p in env.missing(packages) ==> p in packages
  }

  function FirstOrderFlag(flags: seq<string>): Option<string> {
    if flags == [] then None
    else if IsOrderFlag(flags[0]) then Some(flags[0])
    else FirstOrderFlag(flags[1..])
  }

  /** propagate_internal_ensure_order_flag. */
  function WithOrderOf(source: Package, target: Package): Package {
    match FirstOrderFlag(source.flags)
    case None => target
    case Some(flag) => target.(flags := Filter((f: string) => !IsOrderFlag(f), target.flags) + [flag])
  }

  function Adjusted(current: Package, dependency: Package): Package {
    var p := if current.action == ENSURE then WithOrderOf(current, dependency.(action := ENSURE)) else dependency;
    p.(directRequest := false)
  }

  function AllAdjusted(current: Package, dependencies: seq<Package>): (r: seq<Package>)
    ensures |r| == |dependencies|
    ensures forall k :: 0 <= k < |dependencies| ==> r[k] == Adjusted(current, dependencies[k])
  {
    seq(|dependencies|, k requires 0 <= k < |dependencies| => Adjusted(current, dependencies[k]))
  }

  /** The packages expanding current leads to. */
  function DependenciesOf(env: Environment, current: Package): seq<Package> {
    if env.gateway(current.system) then []
    else
      match env.bundle(current.system)
      case None => []
      case Some(raw) => env.missing(AllAdjusted(current, raw))
  }

  /** d is the requirement q of a bundle, below a package with the given action and flags: only action, flags and
      directRequest may differ, the action only below an ensured package, and the flags only where that one has an
      order flag, which then takes the place of those of q. */
  ghost predicate Requires(current: Package, q: Package, d: Package) {
    && d.name == q.name && d.system == q.system && d.version == q.version && d.sourcePath == q.sourcePath && d.localTarget == q.localTarget
    && d.action == (if current.action == ENSURE then ENSURE else q.action)
    && if current.action == ENSURE && !NoOrder(current.flags)
       then forall f :: f in d.flags <==> (f in q.flags && !IsOrderFlag(f)) || (FirstOrderFlag(current.flags) == Some(f))
       else d.flags == q.flags
  }

  lemma AdjustedIs(current: Package, q: Package)
    ensures Requires(current, q, Adjusted(current, q))
  {
    FirstOrderIs(current.flags);
    FilterMembers((f: string) => !IsOrderFlag(f), q.flags);
    hide IsOrderFlag, FirstOrderFlag, NoOrder;
  }

  /** Dependencies are the requirements of the bundle of an installed plugin outside the gateway, adjusted as little as
      Requires says; they are never direct requests, and below an ensured package they are ensured in its order. */
  lemma DependencyShape(env: Environment, current: Package, d: Package)
    requires FiltersOnly(env) && d in DependenciesOf(env, current)
    ensures !env.gateway(current.system) && env.bundle(current.system).Some?
    ensures exists q :: q in env.bundle(current.system).value && Requires(current, q, d)
    ensures !d.directRequest
    ensures current.action == ENSURE ==>
              d.action == ENSURE && (FirstOrderFlag(current.flags).Some? ==> EnsureOrder(d.flags) == EnsureOrder(current.flags))
  {
    var raw := env.bundle(current.system).value;
    var k :| 0 <= k < |raw| && AllAdjusted(current, raw)[k] == d;
    assert raw[k] in raw;
    AdjustedIs(current, raw[k]);
    hide Requires;
    if current.action == ENSURE && FirstOrderFlag(current.flags).Some? {
      var kept := Filter((f: string) => !IsOrderFlag(f), raw[k].flags);
      FilterMembers((f: string) => !IsOrderFlag(f), raw[k].flags);
      OrderOfFlag(kept, FirstOrderFlag(current.flags).value);
      OrderIsFirst(current.flags);
    }
  }

  lemma {:induction false} FirstOrderIs(flags: seq<string>)
    ensures FirstOrderFlag(flags).None? <==> NoOrder(flags)
    ensures FirstOrderFlag(flags).Some? ==>
              exists k :: 0 <= k < |flags| && FirstOrderFlag(flags) == Some(flags[k]) && IsOrderFlag(flags[k]) &&
                          forall j :: 0 <= j < k ==> !IsOrderFlag(flags[j])
  {
    if flags != [] {
      assert flags == [flags[0]] + flags[1..];
      FirstOrderIs(flags[1..]);
      if IsOrderFlag(flags[0]) {
        assert flags[0] in flags;
      } else if FirstOrderFlag(flags[1..]).Some? {
        var k :| 0 <= k < |flags[1..]| && FirstOrderFlag(flags[1..]) == Some(flags[1..][k]) && IsOrderFlag(flags[1..][k]) &&
                 forall j :: 0 <= j < k ==> !IsOrderFlag(flags[1..][j]);
        assert flags[k + 1] == flags[1..][k];
        forall j | 0 <= j < k + 1 ensures !IsOrderFlag(flags[j]) {
          assert j > 0 ==> flags[j] == flags[1..][j - 1];
        }
      }
    }
  }

  lemma {:induction false} OrderIsFirst(flags: seq<string>)
    requires FirstOrderFlag(flags).Some?
    ensures IsOrderFlag(FirstOrderFlag(flags).value) && EnsureOrder(flags) == EnsureOrder([FirstOrderFlag(flags).value])
  {
    if !IsOrderFlag(flags[0]) {
      OrderIsFirst(flags[1..]);
    }
  }

  lemma {:induction false} OrderOfFlag(kept: seq<string>, flag: string)
    requires forall f :: f in kept ==> !IsOrderFlag(f)
    ensures EnsureOrder(kept + [flag]) == EnsureOrder([flag])
  {
    if kept == [] {
      assert kept + [flag] == [flag];
    } else {
      assert kept[0] in kept;
      OrderOfFlag(kept[1..], flag);
      assert (kept + [flag])[1..] == kept[1..] + [flag];
    }
  }

  // ----------------------------------------------------------------- invariants

  ghost predicate DistinctVertices(vertices: seq<Package>) {
    forall u, v :: 0 <= u < v < |vertices| ==> !SamePackage(vertices[u], vertices[v])
  }

  /** No self loop, no parallel edge. */
  ghost predicate SimpleEdges(vertices: seq<Package>, edges: seq<(nat, nat)>) {
    Distinct(edges) && forall e :: e in edges ==> e.0 < |vertices| && e.1 < |vertices| && e.0 != e.1
  }

  ghost predicate HasVertex(vertices: seq<Package>, p: Package) {
    exists v :: 0 <= v < |vertices| && SamePackage(vertices[v], p)
  }

  ghost predicate RequestedDirectly(added: seq<Package>, p: Package) {
    exists k :: 0 <= k < |added| && SamePackage(added[k], p) && added[k].directRequest
  }

  /** p has the flags of the first package added as it. */
  ghost predicate CarriesFirst(added: seq<Package>, p: Package) {
    exists k :: 0 <= k < |added| && FirstAs(added, k, p) && added[k].flags == p.flags
  }

  ghost predicate FirstAs(added: seq<Package>, k: nat, p: Package)
    requires k < |added|
  {
    SamePackage(added[k], p) && forall j :: 0 <= j < k ==> !SamePackage(added[j], p)
  }

  /** p was added, carries the flags it was first added with, and is marked direct exactly if it was once added so. */
  ghost predicate Stands(added: seq<Package>, p: Package) {
    CarriesFirst(added, p) && (p.directRequest <==> RequestedDirectly(added, p))
  }

  /** Vertices are the packages added, each with the flags of the first one added as it and with directRequest the
      OR over all of them. */
  ghost predicate DirectExact(vertices: seq<Package>, added: seq<Package>) {
    && (forall v :: 0 <= v < |vertices| ==> Stands(added, vertices[v]))
    && (forall k :: 0 <= k < |added| ==> HasVertex(vertices, added[k]))
  }

  /** An edge leads from a dependency to the package that needs it, and whose expansion has begun. */
  ghost predicate Justified(env: Environment, vertices: seq<Package>, started: seq<Package>, e: (nat, nat)) {
    e.0 < |vertices| && e.1 < |vertices| &&
    exists p, d :: p in started && d in DependenciesOf(env, p) && SamePackage(vertices[e.0], d) && SamePackage(vertices[e.1], p)
  }

  ghost predicate Linked(vertices: seq<Package>, edges: seq<(nat, nat)>, d: Package, p: Package) {
    exists u: nat, v: nat :: u < |vertices| && v < |vertices| && SamePackage(vertices[u], d) && SamePackage(vertices[v], p) &&
                             (u == v || (u, v) in edges)
  }

  /** Every dependency of an expanded package is linked to it. */
  ghost predicate AllLinked(env: Environment, vertices: seq<Package>, edges: seq<(nat, nat)>, expanded: seq<Package>) {
    forall p, d :: p in expanded && d in DependenciesOf(env, p) ==> Linked(vertices, edges, d, p)
  }

  ghost predicate SystemExpanded(expanded: seq<Package>, system: string) {
    exists q :: q in expanded && q.system == system
  }

  /** The systems needed by expanded packages have been expanded or are being expanded. */
  ghost predicate Covered(env: Environment, expanded: seq<Package>, active: seq<string>) {
    forall p, d :: p in expanded && d in DependenciesOf(env, p) ==> d.system in active || SystemExpanded(expanded, d.system)
  }

  ghost predicate NeededBy(env: Environment, started: seq<Package>, p: Package) {
    exists q :: q in started && p in DependenciesOf(env, q)
  }

  /** Package k was to be expanded by request, or is needed by one whose expansion began before. */
  ghost predicate BegunAt(env: Environment, requested: seq<(Package, bool)>, started: seq<Package>, k: nat)
    requires k < |started|
  {
    (started[k], true) in requested || NeededBy(env, started[..k], started[k])
  }

  /** Nothing is expanded that no request leads to. */
  ghost predicate Reached(env: Environment, requested: seq<(Package, bool)>, started: seq<Package>) {
    forall k :: 0 <= k < |started| ==> BegunAt(env, requested, started, k)
  }

  /** p was requested, or is needed by a package that is expanded. */
  ghost predicate Met(env: Environment, requested: seq<(Package, bool)>, started: seq<Package>, p: Package) {
    (p, true) in requested || (p, false) in requested || NeededBy(env, started, p)
  }

  /** later has the vertices of earlier at the same places. */
  ghost predicate Grows(earlier: seq<Package>, later: seq<Package>) {
    |earlier| <= |later| && forall v :: 0 <= v < |earlier| ==> SamePackage(earlier[v], later[v])
  }

  ghost predicate ClosedUniverse(env: Environment, universe: set<string>) {
    forall p: Package, d: Package :: p.system in universe && d in DependenciesOf(env, p) ==> d.system in universe
  }

  // -------------------------------------------------------- adding one vertex

  lemma RequestedMore(added: seq<Package>, p: Package, q: Package)
    ensures RequestedDirectly(added + [p], q) <==> RequestedDirectly(added, q) || (SamePackage(p, q) && p.directRequest)
  {
    hide SamePackage, Stripped;
    var more := added + [p];
    assert more[|added|] == p;
    if RequestedDirectly(added, q) {
      var k :| 0 <= k < |added| && SamePackage(added[k], q) && added[k].directRequest;
      assert more[k] == added[k];
    }
  }

  lemma RequestedSame(added: seq<Package>, p: Package, q: Package)
    requires SamePackage(p, q)
    ensures RequestedDirectly(added, p) <==> RequestedDirectly(added, q)
  {
    hide SamePackage, Stripped;
  }

  lemma HasVertexMore(vertices: seq<Package>, p: Package, q: Package)
    ensures HasVertex(vertices + [p], q) <==> HasVertex(vertices, q) || SamePackage(p, q)
  {
    hide SamePackage, Stripped;
    assert (vertices + [p])[|vertices|] == p;
    if HasVertex(vertices, q) {
      var v :| 0 <= v < |vertices| && SamePackage(vertices[v], q);
      assert (vertices + [p])[v] == vertices[v];
    }
  }

  lemma HasVertexSame(vertices: seq<Package>, p: Package, q: Package)
    requires SamePackage(p, q)
    ensures HasVertex(vertices, p) <==> HasVertex(vertices, q)
  {
    hide SamePackage, Stripped;
  }

  lemma HasVertexGrows(earlier: seq<Package>, later: seq<Package>, q: Package)
    requires Grows(earlier, later) && HasVertex(earlier, q)
    ensures HasVertex(later, q)
  {
    hide SamePackage, Stripped;
    var v :| 0 <= v < |earlier| && SamePackage(earlier[v], q);
    assert SamePackage(later[v], q);
  }

  function Marked(vertices: seq<Package>, v: nat, direct: bool): (r: seq<Package>)
    requires v < |vertices|
    ensures |r| == |vertices|
  {
    vertices[v := vertices[v].(directRequest := vertices[v].directRequest || direct)]
  }

  lemma MarkedGrows(vertices: seq<Package>, v: nat, direct: bool)
    requires v < |vertices|
    ensures Grows(vertices, Marked(vertices, v, direct))
    ensures DistinctVertices(vertices) ==> DistinctVertices(Marked(vertices, v, direct))
  {
    assert forall u :: 0 <= u < |vertices| ==> Stripped(Marked(vertices, v, direct)[u]) == Stripped(vertices[u]);
    hide SamePackage, Stripped, Marked;
  }

  lemma FirstMore(added: seq<Package>, p: Package, before: Package, after: Package)
    requires CarriesFirst(added, before) && SamePackage(before, after) && after.flags == before.flags
    ensures CarriesFirst(added + [p], after)
  {
    hide SamePackage, Stripped;
    var more := added + [p];
    var k :| 0 <= k < |added| && FirstAs(added, k, before) && added[k].flags == before.flags;
    assert forall j :: 0 <= j <= k ==> more[j] == added[j];
    assert FirstAs(more, k, after);
  }

  lemma StandsMore(added: seq<Package>, p: Package, before: Package, after: Package)
    requires Stands(added, before) && SamePackage(before, after) && after.flags == before.flags
    requires after.directRequest == (before.directRequest || (SamePackage(p, before) && p.directRequest))
    ensures Stands(added + [p], after)
  {
    hide SamePackage, Stripped, RequestedDirectly, CarriesFirst;
    RequestedMore(added, p, after);
    RequestedSame(added, before, after);
    FirstMore(added, p, before, after);
  }

  lemma MarkedAt(vertices: seq<Package>, v: nat, direct: bool, u: nat)
    requires v < |vertices| && u < |vertices|
    ensures SamePackage(vertices[u], Marked(vertices, v, direct)[u]) && Marked(vertices, v, direct)[u].flags == vertices[u].flags
    ensures Marked(vertices, v, direct)[u].directRequest == (vertices[u].directRequest || (u == v && direct))
  {
  }

  lemma MarkedStands(vertices: seq<Package>, added: seq<Package>, v: nat, p: Package, u: nat)
    requires v < |vertices| && u < |vertices| && SamePackage(vertices[v], p) && Stands(added, vertices[u])
    requires DistinctVertices(vertices)
    ensures Stands(added + [p], Marked(vertices, v, p.directRequest)[u])
  {
    hide SamePackage, Stripped, Marked, Stands;
    MarkedAt(vertices, v, p.directRequest, u);
    assert SamePackage(vertices[u], vertices[v]) <==> u == v;
    hide DistinctVertices;
    assert SamePackage(p, vertices[u]) <==> u == v;
    StandsMore(added, p, vertices[u], Marked(vertices, v, p.directRequest)[u]);
  }

  lemma MarkedHas(vertices: seq<Package>, v: nat, p: Package, q: Package)
    requires v < |vertices| && SamePackage(vertices[v], p) && (HasVertex(vertices, q) || q == p)
    ensures HasVertex(Marked(vertices, v, p.directRequest), q)
  {
    MarkedGrows(vertices, v, p.directRequest);
    HasVertexAt(vertices, v);
    hide SamePackage, Stripped, HasVertex, Marked, Grows;
    HasVertexSame(vertices, vertices[v], p);
    HasVertexGrows(vertices, Marked(vertices, v, p.directRequest), q);
  }

  lemma FoundKeepsDirect(vertices: seq<Package>, added: seq<Package>, v: nat, p: Package)
    requires v < |vertices| && SamePackage(vertices[v], p) && DistinctVertices(vertices) && DirectExact(vertices, added)
    ensures DirectExact(Marked(vertices, v, p.directRequest), added + [p])
  {
    var after, more := Marked(vertices, v, p.directRequest), added + [p];
    hide SamePackage, Stripped, HasVertex, Marked, Stands, DistinctVertices;
    forall u | 0 <= u < |after| ensures Stands(more, after[u]) {
      MarkedStands(vertices, added, v, p, u);
    }
    forall k | 0 <= k < |more| ensures HasVertex(after, more[k]) {
      MarkedHas(vertices, v, p, more[k]);
    }
  }

  lemma HasVertexAt(vertices: seq<Package>, v: nat)
    requires v < |vertices|
    ensures HasVertex(vertices, vertices[v])
  {
  }

  lemma NotRequested(vertices: seq<Package>, added: seq<Package>, p: Package)
    requires !HasVertex(vertices, p) && DirectExact(vertices, added)
    ensures !RequestedDirectly(added, p)
  {
    hide SamePackage, Stripped;
    if k :| 0 <= k < |added| && SamePackage(added[k], p) && added[k].directRequest {
      HasVertexSame(vertices, added[k], p);
    }
  }

  lemma NewIsDistinct(vertices: seq<Package>, p: Package)
    requires !HasVertex(vertices, p) && DistinctVertices(vertices)
    ensures DistinctVertices(vertices + [p]) && Grows(vertices, vertices + [p])
  {
    assert forall u :: 0 <= u < |vertices| ==> !SamePackage(vertices[u], p);
    hide SamePackage, Stripped;
  }

  lemma NewIsFirst(vertices: seq<Package>, added: seq<Package>, p: Package)
    requires !HasVertex(vertices, p) && DirectExact(vertices, added)
    ensures CarriesFirst(added + [p], p)
  {
    hide SamePackage, Stripped, Stands;
    forall j | 0 <= j < |added| ensures !SamePackage(added[j], p) {
      if SamePackage(added[j], p) {
        HasVertexSame(vertices, added[j], p);
      }
    }
    SameAsItself(p);
    assert (added + [p])[|added|] == p;
    assert FirstAs(added + [p], |added|, p);
  }

  lemma SameAsItself(p: Package)
    ensures SamePackage(p, p)
  {
  }

  lemma NewStands(vertices: seq<Package>, added: seq<Package>, p: Package)
    requires !HasVertex(vertices, p) && DirectExact(vertices, added)
    ensures Stands(added + [p], p)
  {
    NotRequested(vertices, added, p);
    RequestedMore(added, p, p);
    NewIsFirst(vertices, added, p);
    hide RequestedDirectly, CarriesFirst;
  }

  lemma OthersStand(added: seq<Package>, p: Package, vertex: Package)
    requires Stands(added, vertex) && !SamePackage(vertex, p)
    ensures Stands(added + [p], vertex)
  {
    SameAsItself(vertex);
    StandsMore(added, p, vertex, vertex);
  }

  lemma OldStands(vertices: seq<Package>, added: seq<Package>, p: Package, u: nat)
    requires !HasVertex(vertices, p) && u < |vertices| && Stands(added, vertices[u])
    ensures Stands(added + [p], vertices[u])
  {
    assert !SamePackage(vertices[u], p);
    hide SamePackage, Stripped, HasVertex, Stands;
    OthersStand(added, p, vertices[u]);
  }

  lemma NewKeepsDirect(vertices: seq<Package>, added: seq<Package>, p: Package)
    requires !HasVertex(vertices, p) && DistinctVertices(vertices) && DirectExact(vertices, added)
    ensures DirectExact(vertices + [p], added + [p])
  {
    var after, more := vertices + [p], added + [p];
    NewStands(vertices, added, p);
    hide SamePackage, Stripped, HasVertex, Stands, DistinctVertices;
    forall u | 0 <= u < |after| ensures Stands(more, after[u]) {
      if u < |vertices| {
        OldStands(vertices, added, p, u);
      }
    }
    forall k | 0 <= k < |more| ensures HasVertex(after, more[k]) {
      HasVertexMore(vertices, p, more[k]);
    }
  }

  lemma JustifiedGrows(env: Environment, earlier: seq<Package>, later: seq<Package>, started: seq<Package>, more: seq<Package>, e: (nat, nat))
    requires Grows(earlier, later) && (forall p :: p in started ==> p in more) && Justified(env, earlier, started, e)
    ensures Justified(env, later, more, e)
  {
    hide DependenciesOf, SamePackage, Stripped;
    var p, d :| p in started && d in DependenciesOf(env, p) && SamePackage(earlier[e.0], d) && SamePackage(earlier[e.1], p);
    assert SamePackage(earlier[e.0], later[e.0]) && SamePackage(earlier[e.1], later[e.1]);
    assert p in more && SamePackage(later[e.0], d) && SamePackage(later[e.1], p);
  }

  lemma GrowthKeepsEdges(env: Environment, earlier: seq<Package>, later: seq<Package>, started: seq<Package>, more: seq<Package>,
                         edges: seq<(nat, nat)>, expanded: seq<Package>)
    requires Grows(earlier, later) && SimpleEdges(earlier, edges) && AllLinked(env, earlier, edges, expanded)
    requires (forall p :: p in started ==> p in more) && forall e :: e in edges ==> Justified(env, earlier, started, e)
    ensures SimpleEdges(later, edges) && AllLinked(env, later, edges, expanded)
    ensures forall e :: e in edges ==> Justified(env, later, more, e)
  {
    hide DependenciesOf, SamePackage, Stripped;
    forall p, d | p in expanded && d in DependenciesOf(env, p) ensures Linked(later, edges, d, p) {
      var u: nat, v: nat :| u < |earlier| && v < |earlier| && SamePackage(earlier[u], d) && SamePackage(earlier[v], p) &&
                            (u == v || (u, v) in edges);
      assert SamePackage(later[u], d) && SamePackage(later[v], p);
    }
    hide Justified;
    forall e | e in edges ensures Justified(env, later, more, e) {
      JustifiedGrows(env, earlier, later, started, more, e);
    }
  }

  // ---------------------------------------------------------- adding one edge

  lemma LinkKeeps(env: Environment, vertices: seq<Package>, edges: seq<(nat, nat)>, started: seq<Package>, expanded: seq<Package>,
                  u: nat, v: nat, d: Package, p: Package)
    requires SimpleEdges(vertices, edges) && AllLinked(env, vertices, edges, expanded)
    requires forall e :: e in edges ==> Justified(env, vertices, started, e)
    requires u < |vertices| && v < |vertices| && SamePackage(vertices[u], d) && SamePackage(vertices[v], p)
    requires p in started && d in DependenciesOf(env, p)
    ensures var more := if u != v && (u, v) !in edges then edges + [(u, v)] else edges;
            && SimpleEdges(vertices, more) && AllLinked(env, vertices, more, expanded) && Linked(vertices, more, d, p)
            && (forall e :: e in more ==> Justified(env, vertices, started, e))
            && (forall e :: e in edges ==> e in more)
  {
    hide DependenciesOf;
    var more := if u != v && (u, v) !in edges then edges + [(u, v)] else edges;
    assert Justified(env, vertices, started, (u, v));
    if u != v && (u, v) !in edges {
      DistinctConcat(edges, [(u, v)]);
    }
    assert forall e :: e in more ==> e in edges || e == (u, v);
    forall q, c | q in expanded && c in DependenciesOf(env, q) ensures Linked(vertices, more, c, q) {
      assert Linked(vertices, edges, c, q);
      LinkedMore(vertices, edges, more, c, q);
    }
    assert u == v || (u, v) in more;
  }

  lemma LinkedMore(vertices: seq<Package>, edges: seq<(nat, nat)>, more: seq<(nat, nat)>, d: Package, p: Package)
    requires Linked(vertices, edges, d, p) && forall e :: e in edges ==> e in more
    ensures Linked(vertices, more, d, p)
  {
  }

  lemma LinkedGrows(earlier: seq<Package>, later: seq<Package>, edges: seq<(nat, nat)>, more: seq<(nat, nat)>, d: Package, p: Package)
    requires Linked(earlier, edges, d, p) && Grows(earlier, later) && forall e :: e in edges ==> e in more
    ensures Linked(later, more, d, p)
  {
    var u: nat, v: nat :| u < |earlier| && v < |earlier| && SamePackage(earlier[u], d) && SamePackage(earlier[v], p) &&
                          (u == v || (u, v) in edges);
    assert SamePackage(later[u], d) && SamePackage(later[v], p);
  }

  // ---------------------------------------- beginning and ending an expansion

  lemma NeededMore(env: Environment, started: seq<Package>, more: seq<Package>, p: Package)
    requires NeededBy(env, started, p) && forall q :: q in started ==> q in more
    ensures NeededBy(env, more, p)
  {
    hide DependenciesOf;
  }

  lemma MetMore(env: Environment, requested: seq<(Package, bool)>, started: seq<Package>, more: seq<Package>, added: seq<Package>)
    requires (forall q :: q in started ==> q in more) && forall p :: p in added ==> Met(env, requested, started, p)
    ensures forall p :: p in added ==> Met(env, requested, more, p)
  {
    hide NeededBy;
    forall p | p in added && NeededBy(env, started, p) ensures NeededBy(env, more, p) {
      NeededMore(env, started, more, p);
    }
  }

  lemma ReachedMore(env: Environment, requested: seq<(Package, bool)>, started: seq<Package>, p: Package)
    requires Reached(env, requested, started) && ((p, true) in requested || NeededBy(env, started, p))
    ensures Reached(env, requested, started + [p])
  {
    hide NeededBy;
    var more := started + [p];
    forall k | 0 <= k < |more| ensures BegunAt(env, requested, more, k) {
      assert more[..k] == started[..k];
      assert k < |started| ==> BegunAt(env, requested, started, k);
      assert started[..|started|] == started;
    }
  }

  lemma ExpansionEnds(env: Environment, vertices: seq<Package>, edges: seq<(nat, nat)>, expanded: seq<Package>, active: seq<string>, current: Package)
    requires AllLinked(env, vertices, edges, expanded) && Covered(env, expanded, active + [current.system])
    requires forall d :: d in DependenciesOf(env, current) ==>
               Linked(vertices, edges, d, current) && (d.system in active + [current.system] || SystemExpanded(expanded, d.system))
    ensures AllLinked(env, vertices, edges, expanded + [current]) && Covered(env, expanded + [current], active)
  {
    hide DependenciesOf, Linked;
    var more := expanded + [current];
    assert current in more;
    forall p, d | p in more && d in DependenciesOf(env, p) ensures d.system in active || SystemExpanded(more, d.system) {
      if SystemExpanded(expanded, d.system) {
        SystemsMore(expanded, more, d.system);
      }
    }
  }

  lemma SystemsMore(expanded: seq<Package>, more: seq<Package>, system: string)
    requires SystemExpanded(expanded, system) && forall p :: p in expanded ==> p in more
    ensures SystemExpanded(more, system)
  {
  }

  lemma CoveredDeeper(env: Environment, expanded: seq<Package>, active: seq<string>, system: string)
    requires Covered(env, expanded, active)
    ensures Covered(env, expanded, active + [system])
  {
    hide DependenciesOf, SystemExpanded;
  }

  // ------------------------------------------------------------------ expansion

  class Expansion {
    const env: Environment
    /** The requested packages, and whether each is to be expanded. */
    ghost const requested: seq<(Package, bool)>
    var vertices: seq<Package>
    var edges: seq<(nat, nat)>
    /** Every package passed to find_or_add_package_vertex, those whose expansion has begun, and those whose
        dependencies have all been followed. */
    ghost var added: seq<Package>
    ghost var started: seq<Package>
    ghost var expanded: seq<Package>

    ghost predicate Valid()
      reads this
    {
      DistinctVertices(vertices) && DirectExact(vertices, added) && EdgesValid() && Bounded()
    }

    constructor (env: Environment, ghost requested: seq<(Package, bool)>)
      ensures Valid() && this.env == env && this.requested == requested
      ensures vertices == [] && edges == [] && added == [] && started == [] && expanded == []
    {
      this.env := env;
      this.requested := requested;
      vertices, edges, added, started, expanded := [], [], [], [], [];
    }

    ghost predicate EdgesValid()
      reads this
    {
      && SimpleEdges(vertices, edges) && AllLinked(env, vertices, edges, expanded)
      && forall e :: e in edges ==> Justified(env, vertices, started, e)
    }

    /** Nothing is added or expanded that no request leads to. */
    ghost predicate Bounded()
      reads this
    {
      && Reached(env, requested, started)
      && (forall p :: p in added ==> Met(env, requested, started, p))
      && (forall p :: p in started ==> p in added)
      && (forall p :: p in expanded ==> p in started)
    }

    /** Takes new vertices that keep the old ones in place. */
    method Grow(after: seq<Package>, ghost package: Package)
      requires EdgesValid() && Grows(vertices, after) && Bounded() && Met(env, requested, started, package)
      modifies this`vertices, this`added
      ensures EdgesValid() && Bounded() && vertices == after && added == old(added) + [package]
    {
      hide SimpleEdges, Justified, AllLinked, Grows, Reached, Met;
      GrowthKeepsEdges(env, vertices, after, started, started, edges, expanded);
      vertices := after;
      added := added + [package];
    }

    /** find_or_add_package_vertex: the vertex of the same package, at most marked direct, or else a new one. */
    method FindOrAddPackageVertex(package: Package) returns (vertex: nat)
      requires Valid() && Met(env, requested, started, package)
      modifies this`vertices, this`added
      ensures Valid() && Grows(old(vertices), vertices) && added == old(added) + [package]
      ensures vertex < |vertices| && SamePackage(vertices[vertex], package)
      ensures vertices == if vertex < |old(vertices)| then Marked(old(vertices), vertex, package.directRequest) else old(vertices) + [package]
    {
      hide DistinctVertices, SimpleEdges, DirectExact, Justified, AllLinked, Grows, SamePackage, Stripped, Reached, Met, Marked;
      for v := 0 to |vertices|
        invariant forall u :: 0 <= u < v ==> !SamePackage(vertices[u], package)
      {
        if SamePackage(vertices[v], package) {
          FoundKeepsDirect(vertices, added, v, package);
          MarkedGrows(vertices, v, package.directRequest);
          MarkedSame(vertices, v, package.directRequest);
          Grow(Marked(vertices, v, package.directRequest), package);
          return v;
        }
      }
      assert !HasVertex(vertices, package);
      NewKeepsDirect(vertices, added, package);
      NewIsDistinct(vertices, package);
      SameAsItself(package);
      Grow(vertices + [package], package);
      return |vertices| - 1;
    }

    /** boost::add_edge behind its two guards. */
    method Link(u: nat, v: nat, ghost d: Package, ghost p: Package)
      requires Valid() && u < |vertices| && v < |vertices| && SamePackage(vertices[u], d) && SamePackage(vertices[v], p)
      requires p in started && d in DependenciesOf(env, p)
      modifies this`edges
      ensures Valid() && Linked(vertices, edges, d, p)
      ensures edges == if u != v && (u, v) !in old(edges) then old(edges) + [(u, v)] else old(edges)
    {
      hide SimpleEdges, Justified, AllLinked, DependenciesOf, Linked, DistinctVertices, DirectExact, Reached, Met, SamePackage, Stripped;
      LinkKeeps(env, vertices, edges, started, expanded, u, v, d, p);
      if u != v && (u, v) !in edges {
        edges := edges + [(u, v)];
      }
    }

    ghost method BeginExpansion(current: Package)
      requires Valid() && current in added && ((current, true) in requested || NeededBy(env, started, current))
      modifies this`started
      ensures Valid() && started == old(started) + [current]
    {
      hide DistinctVertices, SimpleEdges, DirectExact, Justified, AllLinked, Reached, Met, NeededBy, Grows;
      GrowsReflexive(vertices);
      GrowthKeepsEdges(env, vertices, vertices, started, started + [current], edges, expanded);
      MetMore(env, requested, started, started + [current], added);
      ReachedMore(env, requested, started, current);
      started := started + [current];
    }

    ghost function Now(): Progress
      reads this
    {
      Progress(vertices, edges, added, started, expanded)
    }

    /** The recursive closure of addPackageToGraph. */
    method AddPackageWithDependencies(current: Package, active: seq<string>, ghost universe: set<string>) returns (vertex: nat)
      requires Valid() && ClosedUniverse(env, universe) && current.system in universe
      requires (current, true) in requested || NeededBy(env, started, current)
      requires Covered(env, expanded, active)
      modifies this
      ensures Valid() && Follows(old(Now()), Now()) && Covered(env, expanded, active)
      ensures vertex < |vertices| && SamePackage(vertices[vertex], current) && current in added
      ensures current.system in active || current in expanded
      decreases universe - (set s | s in active), 0
    {
      hide DistinctVertices, SimpleEdges, DirectExact, Justified, AllLinked, DependenciesOf, Linked, Covered, Grows, SystemExpanded,
           Reached, NeededBy, Marked, Follows, Met, ClosedUniverse, SamePackage, Stripped;
      IsMet(env, requested, started, current);
      vertex := FindOrAddPackageVertex(current);
      AddedFollows(old(Now()), Now(), current);
      if current.system in active {
        return;
      }
      ghost var present := Now();
      BeginExpansion(current);
      ghost var begun := Now();
      CoveredDeeper(env, expanded, active, current.system);
      FewerLeft(universe, active, current.system);
      FollowDependencies(current, vertex, active + [current.system], universe);
      FollowsVertex(begun, Now(), vertex, current);
      ExpansionEnds(env, vertices, edges, expanded, active, current);
      ghost var last := Now();
      expanded := expanded + [current];
      EndFollows(old(Now()), present, begun, last, Now(), current);
    }

    /** The loop over the dependencies of a package under expansion. */
    method FollowDependencies(current: Package, vertex: nat, active: seq<string>, ghost universe: set<string>)
      requires Valid() && ClosedUniverse(env, universe) && current.system in universe && Covered(env, expanded, active)
      requires vertex < |vertices| && SamePackage(vertices[vertex], current) && current in started
      modifies this
      ensures Valid() && Follows(old(Now()), Now()) && Covered(env, expanded, active)
      ensures forall d :: d in DependenciesOf(env, current) ==>
                Linked(vertices, edges, d, current) && (d.system in active || SystemExpanded(expanded, d.system))
      decreases universe - (set s | s in active), 1
    {
      hide DistinctVertices, SimpleEdges, DirectExact, Justified, AllLinked, DependenciesOf, Linked, Covered, Grows, SystemExpanded,
           Reached, NeededBy, Marked, Follows, Met, SamePackage, Stripped, Settled, Valid;
      var dependencies := DependenciesOf(env, current);
      ghost var begun := Now();
      FollowsReflexive(begun);
      for k := 0 to |dependencies|
        invariant Valid() && Covered(env, expanded, active) && Follows(begun, Now())
        invariant vertex < |vertices| && SamePackage(vertices[vertex], current) && current in started
        invariant forall j :: 0 <= j < k ==> Settled(vertices, edges, expanded, active, dependencies[j], current)
      {
        ghost var before := Now();
        var d := dependencies[k];
        assert d in dependencies;
        NeededHere(env, started, current, d);
        var dependencyVertex := AddPackageWithDependencies(d, active, universe);
        FollowsVertex(before, Now(), vertex, current);
        ghost var between := Now();
        Link(dependencyVertex, vertex, d, current);
        LinkFollows(begun, before, between, Now());
        forall j | 0 <= j < k ensures Settled(vertices, edges, expanded, active, dependencies[j], current) {
          SettledFollows(before, Now(), active, dependencies[j], current);
        }
        DependencySettled(vertices, edges, expanded, active, d, current);
      }
      AllSettled(vertices, edges, expanded, active, dependencies, current);
    }
  }

  /** The state of an expansion. */
  datatype Progress = Progress(vertices: seq<Package>, edges: seq<(nat, nat)>, added: seq<Package>, started: seq<Package>, expanded: seq<Package>)

  /** What was there stays, and every expansion begun in between has ended. */
  ghost predicate Follows(a: Progress, b: Progress) {
    && Grows(a.vertices, b.vertices) && (forall e :: e in a.edges ==> e in b.edges)
    && (forall p :: p in a.added ==> p in b.added) && (forall p :: p in a.expanded ==> p in b.expanded)
    && (forall p :: p in a.started ==> p in b.started)
    && (forall p :: p in b.started ==> p in a.started || p in b.expanded)
  }

  /** d is linked to p, and its system has been expanded or is being expanded. */
  ghost predicate Settled(vertices: seq<Package>, edges: seq<(nat, nat)>, expanded: seq<Package>, active: seq<string>, d: Package, p: Package) {
    Linked(vertices, edges, d, p) && (d.system in active || SystemExpanded(expanded, d.system))
  }

  lemma FollowsReflexive(a: Progress)
    ensures Follows(a, a)
  {
    GrowsReflexive(a.vertices);
  }

  lemma AddedFollows(a: Progress, b: Progress, p: Package)
    requires Grows(a.vertices, b.vertices) && b == a.(vertices := b.vertices, added := a.added + [p])
    ensures Follows(a, b)
  {
  }

  lemma FollowsVertex(a: Progress, b: Progress, vertex: nat, p: Package)
    requires Follows(a, b) && vertex < |a.vertices| && SamePackage(a.vertices[vertex], p)
    ensures vertex < |b.vertices| && SamePackage(b.vertices[vertex], p)
    ensures (forall q :: q in a.started ==> q in b.started) && (forall q :: q in a.added ==> q in b.added)
  {
  }

  lemma LinkFollows(a: Progress, b: Progress, c: Progress, d: Progress)
    requires Follows(a, b) && Follows(b, c) && d == c.(edges := d.edges) && forall e :: e in c.edges ==> e in d.edges
    ensures Follows(a, d) && Follows(b, d)
  {
    assert Grows(a.vertices, d.vertices) by {
      GrowsTransitive(a.vertices, b.vertices, c.vertices);
    }
    hide Grows;
  }

  lemma GrowsTransitive(a: seq<Package>, b: seq<Package>, c: seq<Package>)
    requires Grows(a, b) && Grows(b, c)
    ensures Grows(a, c)
  {
  }

  lemma EndFollows(a: Progress, b: Progress, c: Progress, d: Progress, e: Progress, p: Package)
    requires Follows(a, b) && c == b.(started := b.started + [p]) && Follows(c, d) && e == d.(expanded := d.expanded + [p])
    ensures Follows(a, e)
  {
    GrowsTransitive(a.vertices, b.vertices, d.vertices);
    hide Grows;
  }

  lemma SettledFollows(a: Progress, b: Progress, active: seq<string>, d: Package, p: Package)
    requires Follows(a, b) && Settled(a.vertices, a.edges, a.expanded, active, d, p)
    ensures Settled(b.vertices, b.edges, b.expanded, active, d, p)
  {
    LinkedGrows(a.vertices, b.vertices, a.edges, b.edges, d, p);
    if SystemExpanded(a.expanded, d.system) {
      SystemsMore(a.expanded, b.expanded, d.system);
    }
  }

  lemma DependencySettled(vertices: seq<Package>, edges: seq<(nat, nat)>, expanded: seq<Package>, active: seq<string>, d: Package, p: Package)
    requires Linked(vertices, edges, d, p) && (d.system in active || d in expanded)
    ensures Settled(vertices, edges, expanded, active, d, p)
  {
    if d in expanded {
      ExpandedSystem(expanded, d);
    }
  }

  lemma AllSettled(vertices: seq<Package>, edges: seq<(nat, nat)>, expanded: seq<Package>, active: seq<string>, dependencies: seq<Package>, p: Package)
    requires forall j :: 0 <= j < |dependencies| ==> Settled(vertices, edges, expanded, active, dependencies[j], p)
    ensures forall d :: d in dependencies ==> Linked(vertices, edges, d, p) && (d.system in active || SystemExpanded(expanded, d.system))
  {
    hide Linked, SystemExpanded;
  }

  lemma IsMet(env: Environment, requested: seq<(Package, bool)>, started: seq<Package>, p: Package)
    requires (p, true) in requested || NeededBy(env, started, p)
    ensures Met(env, requested, started, p)
  {
  }

  lemma NeededHere(env: Environment, started: seq<Package>, current: Package, d: Package)
    requires current in started && d in DependenciesOf(env, current)
    ensures NeededBy(env, started, d)
  {
    hide DependenciesOf;
  }

  lemma MarkedSame(vertices: seq<Package>, v: nat, direct: bool)
    requires v < |vertices|
    ensures SamePackage(Marked(vertices, v, direct)[v], vertices[v])
  {
  }

  lemma FewerLeft(universe: set<string>, active: seq<string>, system: string)
    requires system in universe && system !in active
    ensures universe - (set s | s in active + [system]) < universe - (set s | s in active)
  {
    assert system in universe - (set s | s in active);
    assert forall s :: s in active ==> s in active + [system];
  }

  lemma GrowsReflexive(vertices: seq<Package>)
    ensures Grows(vertices, vertices)
  {
  }

  lemma ExpandedSystem(expanded: seq<Package>, p: Package)
    requires p in expanded
    ensures SystemExpanded(expanded, p.system)
  {
  }

  /** What expanding the requested packages leaves: a simple graph whose vertices are exactly the packages requested
      or needed by expanded ones, whose edges are exactly the needs of the expanded ones, and in which no needed
      system is left unexpanded. expanded lists packages in the order in which their expansion began. */
  ghost predicate ExpandedGraph(env: Environment, g: Graph, requested: seq<(Package, bool)>, added: seq<Package>, expanded: seq<Package>) {
    && DistinctVertices(g.vertices) && SimpleEdges(g.vertices, g.edges) && DirectExact(g.vertices, added)
    && (forall e :: e in g.edges ==> Justified(env, g.vertices, expanded, e))
    && AllLinked(env, g.vertices, g.edges, expanded) && Covered(env, expanded, [])
    && Reached(env, requested, expanded)
    && (forall p :: p in added ==> Met(env, requested, expanded, p)) && (forall p :: p in expanded ==> p in added)
    && (forall r :: r in requested ==> r.0 in added && (r.1 ==> r.0 in expanded))
  }

  /** buildDag and buildDependencyDag: each requested package with or without its dependencies. */
  method BuildDag(env: Environment, requested: seq<(Package, bool)>, ghost universe: set<string>)
    returns (g: Graph, ghost added: seq<Package>, ghost expanded: seq<Package>)
    requires ClosedUniverse(env, universe) && forall r :: r in requested ==> r.0.system in universe
    ensures ExpandedGraph(env, g, requested, added, expanded) && InRange(g)
  {
    hide DistinctVertices, DirectExact, Justified, AllLinked, Covered, Grows, ClosedUniverse, Reached, NeededBy, Marked;
    var expansion := new Expansion(env, requested);
    NothingExpanded(env);
    for k := 0 to |requested|
      invariant expansion.Valid() && expansion.env == env && expansion.requested == requested && Covered(env, expansion.expanded, [])
      invariant forall p :: p in expansion.started ==> p in expansion.expanded
      invariant forall r :: r in requested[..k] ==> r.0 in expansion.added && (r.1 ==> r.0 in expansion.expanded)
    {
      var r := requested[k];
      assert r in requested;
      assert requested[..k + 1] == requested[..k] + [r];
      if r.1 {
        var v := expansion.AddPackageWithDependencies(r.0, [], universe);
      } else {
        var v := expansion.FindOrAddPackageVertex(r.0);
      }
    }
    assert requested[..|requested|] == requested;
    g, added, expanded := Graph(expansion.vertices, expansion.edges), expansion.added, expansion.started;
    SameExpanded(env, g, expansion.expanded, expanded);
  }

  lemma SameExpanded(env: Environment, g: Graph, expanded: seq<Package>, started: seq<Package>)
    requires forall p :: p in expanded <==> p in started
    requires AllLinked(env, g.vertices, g.edges, expanded) && Covered(env, expanded, [])
    ensures AllLinked(env, g.vertices, g.edges, started) && Covered(env, started, [])
  {
    hide Linked, DependenciesOf;
    forall p, d | p in started && d in DependenciesOf(env, p) ensures d.system in [] || SystemExpanded(started, d.system) {
      SystemsMore(expanded, started, d.system);
    }
  }

  lemma NothingExpanded(env: Environment)
    ensures Covered(env, [], [])
  {
  }
}
