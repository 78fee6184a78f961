// What the task groups of a graph hold together: every package of the graph, and
// with each group the flags of its packages.
module GroupContents {
  import opened Sequences
  import opened Sorting
  import opened Packages
  import opened TaskPlans
  import opened VertexOrder
  import opened TaskGroups

  /** The groups are the maximal runs of the packages, on Windows partitioned, and filtered if plugins are asked. */
  ghost predicate GroupsOf(windows: bool, filter: Option<Plugins>, packages: seq<Package>, groups: seq<TaskGroup>) {
    exists runs, origin :: MaximalRuns(runs, packages) && FromRuns(windows, filter, runs, groups, origin)
  }

  ghost predicate FromRuns(windows: bool, filter: Option<Plugins>, runs: seq<TaskGroup>, groups: seq<TaskGroup>, origin: seq<nat>) {
    var all := if windows then NixLast(runs) else runs;
    match filter
    case None => groups == all
    case Some(plugins) => Filters(plugins, all, groups, origin)
  }

  lemma RunsMakeGroups(windows: bool, filter: Option<Plugins>, packages: seq<Package>, runs: seq<TaskGroup>, groups: seq<TaskGroup>, origin: seq<nat>)
    requires MaximalRuns(runs, packages) && FromRuns(windows, filter, runs, groups, origin)
    ensures GroupsOf(windows, filter, packages, groups)
  {
  }

  // --------------------------------------------------------------- packages

  lemma PackagesMore(groups: seq<TaskGroup>, group: TaskGroup, keep: bool)
    ensures multiset(AllPackages(groups + if keep then [group] else [])) ==
            multiset(AllPackages(groups)) + if keep then multiset(group.packages) else multiset{}
  {
    if keep {
      assert (groups + [group])[..|groups|] == groups;
    } else {
      assert groups + [] == groups;
    }
  }

  lemma {:induction false} MovedPackages(groups: seq<TaskGroup>)
    ensures multiset(AllPackages(Filter(IsOther(), groups))) + multiset(AllPackages(Filter(OnlyNix(), groups))) == multiset(AllPackages(groups))
  {
    if groups != [] {
      var rest, last := groups[..|groups| - 1], groups[|groups| - 1];
      MovedPackages(rest);
      var others, nix := Filter(IsOther(), rest), Filter(OnlyNix(), rest);
      assert Filter(IsOther(), groups) == others + if !IsNix(last.system) then [last] else [];
      assert Filter(OnlyNix(), groups) == nix + if IsNix(last.system) then [last] else [];
      hide Filter, IsNix;
      assert AllPackages(groups) == AllPackages(rest) + last.packages;
      hide AllPackages;
      PackagesMore(others, last, !IsNix(last.system));
      PackagesMore(nix, last, IsNix(last.system));
    }
  }

  lemma {:induction false} PackagesOfBoth(a: seq<TaskGroup>, b: seq<TaskGroup>)
    ensures AllPackages(a + b) == AllPackages(a) + AllPackages(b)
  {
    if b == [] {
      assert a + b == a;
    } else {
      var n := |b| - 1;
      PackagesOfBoth(a, b[..n]);
      assert (a + b)[..|a + b| - 1] == a + b[..n];
      Associate(AllPackages(a), AllPackages(b[..n]), b[n].packages);
    }
  }

  /** The partition moves groups, and keeps all packages. */
  lemma NixLastKeepsPackages(groups: seq<TaskGroup>)
    ensures multiset(AllPackages(NixLast(groups))) == multiset(AllPackages(groups))
  {
    MovedPackages(groups);
    PackagesOfBoth(Filter(IsOther(), groups), Filter(OnlyNix(), groups));
  }

  lemma WithoutOne<T>(s: seq<T>, k: nat)
    requires k < |s|
    ensures multiset(s[..k] + s[k + 1..]) + multiset{s[k]} == multiset(s)
  {
    assert s == s[..k] + [s[k]] + s[k + 1..];
  }

  lemma PackagesWithoutOne(g: Graph, order: seq<nat>, k: nat, v: nat, rest: seq<nat>)
    requires OrderInRange(g, order) && k < |order| && order[k] == v && rest == order[..k] + order[k + 1..]
    ensures OrderInRange(g, rest) && v < |g.vertices|
    ensures multiset(PackagesAt(g, order)) == multiset(PackagesAt(g, rest)) + multiset{g.vertices[v]}
  {
    var all := PackagesAt(g, order);
    assert PackagesAt(g, order[..k] + order[k + 1..]) == all[..k] + all[k + 1..];
    WithoutOne(all, k);
  }

  lemma PlaceOf<T>(s: seq<T>, x: T) returns (k: nat)
    requires x in multiset(s)
    ensures k < |s| && s[k] == x
  {
    k :| 0 <= k < |s| && s[k] == x;
  }

  lemma SameRest<T>(a: multiset<T>, b: multiset<T>, x: T)
    requires a + multiset{x} == b + multiset{x}
    ensures a == b
  {
    forall y ensures a[y] == b[y] {
      assert (a + multiset{x})[y] == (b + multiset{x})[y];
    }
  }

  lemma EmptyTogether<T>(a: seq<T>, b: seq<T>)
    requires multiset(a) == multiset(b)
    ensures |a| == |b|
  {
    assert |multiset(a)| == |a| && |multiset(b)| == |b|;
  }

  lemma {:induction false} SamePackagesAt(g: Graph, a: seq<nat>, b: seq<nat>)
    requires OrderInRange(g, a) && OrderInRange(g, b) && multiset(a) == multiset(b)
    ensures multiset(PackagesAt(g, a)) == multiset(PackagesAt(g, b))
    decreases |a|
  {
    EmptyTogether(a, b);
    if a != [] {
      hide OrderInRange, PackagesAt;
      var x := a[0];
      assert x in multiset(a);
      var k := PlaceOf(b, x);
      var a', b' := a[..0] + a[1..], b[..k] + b[k + 1..];
      WithoutOne(a, 0);
      WithoutOne(b, k);
      SameRest(multiset(a'), multiset(b'), x);
      PackagesWithoutOne(g, a, 0, x, a');
      PackagesWithoutOne(g, b, k, x, b');
      SamePackagesAt(g, a', b');
    }
  }

  lemma AllOnce(order: seq<nat>, n: nat)
    requires Distinct(order) && forall v: nat :: v in order <==> v < n
    ensures multiset(order) == multiset(Indices(n))
  {
    var all := Indices(n);
    forall v: nat ensures multiset(order)[v] == multiset(all)[v] {
      OneOccurrence(order, v);
      OneOccurrence(all, v);
      assert v < n ==> all[v] == v;
      assert v in multiset(order) <==> v in order;
      assert v in multiset(all) <==> v in all;
    }
  }

  /** An order of all vertices has all packages of the graph. */
  lemma OrderHasAll(g: Graph, order: seq<nat>)
    requires Topological(g, order) && OrderInRange(g, order)
    ensures multiset(PackagesAt(g, order)) == multiset(g.vertices)
  {
    var all := Indices(|g.vertices|);
    AllOnce(order, |g.vertices|);
    SamePackagesAt(g, order, all);
    assert PackagesAt(g, all) == g.vertices;
  }

  /** Unfiltered groups hold exactly the packages of the graph, each as often as it is a vertex. */
  lemma GroupsHoldAll(g: Graph, order: seq<nat>, windows: bool, groups: seq<TaskGroup>)
    requires Topological(g, order) && OrderInRange(g, order) && GroupsOf(windows, None, PackagesAt(g, order), groups)
    ensures multiset(AllPackages(groups)) == multiset(g.vertices)
  {
    hide Topological, NixLast, PackagesAt, OrderInRange, AllPackages, MaximalRuns;
    OrderHasAll(g, order);
    var runs, origin :| MaximalRuns(runs, PackagesAt(g, order)) && FromRuns(windows, None, runs, groups, origin);
    NixLastKeepsPackages(runs);
    RunsHold(runs, PackagesAt(g, order));
  }

  lemma RunsHold(runs: seq<TaskGroup>, packages: seq<Package>)
    requires MaximalRuns(runs, packages)
    ensures AllPackages(runs) == packages
  {
  }

  // ------------------------------------------------------------------ flags

  /** The group has the flags of its packages and no other. */
  ghost predicate CarriesFlags(group: TaskGroup) {
    forall f :: f in group.flags <==> exists p :: p in group.packages && f in p.flags
  }

  lemma RunsCarryFlags(windows: bool, packages: seq<Package>, groups: seq<TaskGroup>)
    requires GroupsOf(windows, None, packages, groups)
    ensures forall group :: group in groups ==> CarriesFlags(group)
  {
    hide CarriesFlags, Filter;
    var runs, origin :| MaximalRuns(runs, packages) && FromRuns(windows, None, runs, groups, origin);
    FilterMembers(IsOther(), runs);
    FilterMembers(OnlyNix(), runs);
    forall group | group in groups ensures CarriesFlags(group) {
      assert group in runs;
      RunCarriesFlags(runs, packages, group);
    }
  }

  lemma RunCarriesFlags(runs: seq<TaskGroup>, packages: seq<Package>, group: TaskGroup)
    requires MaximalRuns(runs, packages) && group in runs
    ensures CarriesFlags(group)
  {
    var i :| 0 <= i < |runs| && runs[i] == group;
    assert Groups(runs[i], runs[i].packages);
    RunCarriesAll(group.packages);
    hide RunFlags, LastLocal;
  }

  /** A package that joins the group of package a has the flag. */
  ghost predicate FlagTogether(windows: bool, packages: seq<Package>, a: nat, f: string)
    requires a < |packages|
  {
    exists b: nat :: b < |packages| && !LaterGroup(windows, packages, a, b) && !LaterGroup(windows, packages, b, a) && f in packages[b].flags
  }

  /** Groups have the flags of the packages that joined them, whether or not those are left. */
  ghost predicate FlagsPlaced(windows: bool, packages: seq<Package>, groups: seq<TaskGroup>, at: map<nat, nat>) {
    forall a: nat, f :: a in at && a < |packages| && at[a] < |groups| ==>
      (f in groups[at[a]].flags <==> FlagTogether(windows, packages, a, f))
  }

  lemma FlagsArePlaced(windows: bool, packages: seq<Package>, groups: seq<TaskGroup>, at: map<nat, nat>)
    requires Placed(windows, None, packages, groups, at) && forall group :: group in groups ==> CarriesFlags(group)
    ensures FlagsPlaced(windows, packages, groups, at)
  {
    forall a: nat, f | a in at && a < |packages| && at[a] < |groups|
      ensures f in groups[at[a]].flags <==> FlagTogether(windows, packages, a, f)
    {
      FlagIsPlaced(windows, packages, groups, at, a, f);
    }
  }

  lemma FlagIsPlaced(windows: bool, packages: seq<Package>, groups: seq<TaskGroup>, at: map<nat, nat>, a: nat, f: string)
    requires Placed(windows, None, packages, groups, at) && a in at && CarriesFlags(groups[at[a]])
    ensures f in groups[at[a]].flags <==> FlagTogether(windows, packages, a, f)
  {
    hide LaterGroup;
    if FlagTogether(windows, packages, a, f) {
      var b: nat :| b < |packages| && !LaterGroup(windows, packages, a, b) && !LaterGroup(windows, packages, b, a) && f in packages[b].flags;
      assert b in at && at[b] == at[a];
      assert MemberAt(packages, at, at[a], packages[b]);
    }
    if p :| p in groups[at[a]].packages && f in p.flags {
      assert MemberAt(packages, at, at[a], p);
      var b :| b in at && b < |packages| && at[b] == at[a] && packages[b] == p;
      assert !LaterGroup(windows, packages, a, b) && !LaterGroup(windows, packages, b, a);
    }
  }

  lemma FlagsStayPlaced(windows: bool, packages: seq<Package>, source: seq<TaskGroup>, at: map<nat, nat>, groups: seq<TaskGroup>, moved: map<nat, nat>)
    requires FlagsPlaced(windows, packages, source, at)
    requires forall a: nat :: a in moved ==> a in at && at[a] < |source| && moved[a] < |groups| && groups[moved[a]].flags == source[at[a]].flags
    ensures FlagsPlaced(windows, packages, groups, moved)
  {
    hide FlagTogether;
  }
}
