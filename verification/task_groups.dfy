// TaskGraphBuilder::createFromGraph and filterExecutable: contiguous packages of
// one action and system become one task group.
module TaskGroups {
  import opened Sequences
  import opened Sorting
  import opened Packages
  import opened TaskPlans
  import opened VertexOrder
  import FieldLines

  /** merge_task_group_flags. */
  function MergedFlags(target: seq<string>, flags: seq<string>): seq<string> {
    if flags == [] then target
    else
      var merged := MergedFlags(target, flags[..|flags| - 1]);
      var flag := flags[|flags| - 1];
      if flag in merged then merged else merged + [flag]
  }

  /** The flags of a run of packages: those of the first one, then every new one. */
  function RunFlags(run: seq<Package>): seq<string> {
    if run == [] then []
    else if |run| == 1 then run[0].flags
    else MergedFlags(RunFlags(run[..|run| - 1]), run[|run| - 1].flags)
  }

  /** The sourcePath of the last local package of a run. */
  function LastLocal(run: seq<Package>): Option<string> {
    if run == [] then None
    else if run[|run| - 1].localTarget then Some(run[|run| - 1].sourcePath)
    else LastLocal(run[..|run| - 1])
  }

  /** The group a run of packages becomes. */
  predicate Groups(group: TaskGroup, run: seq<Package>) {
    && run != [] && group.packages == run
    && (forall p :: p in run ==> p.action == group.action && p.system == group.system)
    && group.flags == RunFlags(run)
    && group.usesLocalTarget == LastLocal(run).Some?
    && group.localPath == (if LastLocal(run).Some? then LastLocal(run).value else "")
    && group.nixSoftSkipConsumers == []
  }

  lemma {:induction false} MergedFlagsAre(target: seq<string>, flags: seq<string>)
    ensures target <= MergedFlags(target, flags)
    ensures forall f :: f in MergedFlags(target, flags) <==> f in target || f in flags
    ensures Distinct(target) ==> Distinct(MergedFlags(target, flags))
  {
    if flags != [] {
      var rest, flag := flags[..|flags| - 1], flags[|flags| - 1];
      assert flags == rest + [flag];
      MergedFlagsAre(target, rest);
    }
  }

  /** A group carries every flag of its packages and no other, and a local target exactly when
      one of them is local. */
  lemma {:induction false} RunCarriesAll(run: seq<Package>)
    ensures forall f :: f in RunFlags(run) <==> exists p :: p in run && f in p.flags
    ensures LastLocal(run).Some? <==> exists p :: p in run && p.localTarget
    ensures run != [] && Distinct(run[0].flags) ==> Distinct(RunFlags(run))
  {
    if run != [] {
      var rest, last := run[..|run| - 1], run[|run| - 1];
      assert run == rest + [last];
      RunCarriesAll(rest);
      if rest != [] {
        MergedFlagsAre(RunFlags(rest), last.flags);
        forall f ensures f in RunFlags(run) <==> exists p :: p in run && f in p.flags {
          assert f in RunFlags(rest) <==> exists p :: p in rest && f in p.flags;
        }
      }
    }
  }

  /** collectPackages. */
  function AllPackages(groups: seq<TaskGroup>): seq<Package> {
    if groups == [] then [] else AllPackages(groups[..|groups| - 1]) + groups[|groups| - 1].packages
  }

  ghost predicate OrderInRange(g: Graph, order: seq<nat>) {
    forall k :: 0 <= k < |order| ==> order[k] < |g.vertices|
  }

  function PackagesAt(g: Graph, order: seq<nat>): (packages: seq<Package>)
    requires OrderInRange(g, order)
    ensures |packages| == |order|
    ensures forall k :: 0 <= k < |order| ==> packages[k] == g.vertices[order[k]]
  {
    seq(|order|, k requires 0 <= k < |order| => g.vertices[order[k]])
  }

  /** The groups are the maximal runs of equal action and system. */
  ghost predicate MaximalRuns(groups: seq<TaskGroup>, packages: seq<Package>) {
    && AllPackages(groups) == packages
    && (forall i :: 0 <= i < |groups| ==> Groups(groups[i], groups[i].packages))
    && (forall i :: 0 < i < |groups| ==> groups[i - 1].action != groups[i].action || groups[i - 1].system != groups[i].system)
  }

  lemma OpenGroup(groups: seq<TaskGroup>, packages: seq<Package>, p: Package, group: TaskGroup)
    requires MaximalRuns(groups, packages)
    requires groups == [] || groups[|groups| - 1].action != p.action || groups[|groups| - 1].system != p.system
    requires group == TaskGroup(p.action, p.system, [p], p.flags, if p.localTarget then p.sourcePath else "", p.localTarget, [])
    ensures MaximalRuns(groups + [group], packages + [p])
  {
    OnePackage(p);
    hide Groups;
    assert (groups + [group])[..|groups|] == groups;
  }

  lemma OnePackage(p: Package)
    ensures Groups(TaskGroup(p.action, p.system, [p], p.flags, if p.localTarget then p.sourcePath else "", p.localTarget, []), [p])
  {
    assert LastLocal([p][..0]).None?;
  }

  lemma ExtendGroup(groups: seq<TaskGroup>, packages: seq<Package>, p: Package, group: TaskGroup)
    requires MaximalRuns(groups, packages) && groups != []
    requires var last := groups[|groups| - 1];
             && last.action == p.action && last.system == p.system
             && group == TaskGroup(last.action, last.system, last.packages + [p], MergedFlags(last.flags, p.flags),
                                   if p.localTarget then p.sourcePath else last.localPath, last.usesLocalTarget || p.localTarget, [])
    ensures MaximalRuns(groups[|groups| - 1 := group], packages + [p])
  {
    var last := groups[|groups| - 1];
    assert Groups(last, last.packages);
    LongerGroup(last, p, group);
    hide Groups, MergedFlags;
    assert groups[|groups| - 1 := group][..|groups| - 1] == groups[..|groups| - 1];
    Associate(AllPackages(groups[..|groups| - 1]), last.packages, [p]);
  }

  lemma LongerGroup(last: TaskGroup, p: Package, group: TaskGroup)
    requires Groups(last, last.packages) && last.action == p.action && last.system == p.system
    requires group == TaskGroup(last.action, last.system, last.packages + [p], MergedFlags(last.flags, p.flags),
                                if p.localTarget then p.sourcePath else last.localPath, last.usesLocalTarget || p.localTarget, [])
    ensures Groups(group, last.packages + [p])
  {
    var run := last.packages + [p];
    assert run[..|run| - 1] == last.packages;
    hide MergedFlags;
  }

  lemma NoGroups()
    ensures MaximalRuns([], [])
  {
  }

  /** One package joins the last group or opens a new one, as createFromGraph and
      createTaskGroupsFromRecords do it. */
  method AppendPackage(before: seq<TaskGroup>, ghost packages: seq<Package>, package: Package) returns (groups: seq<TaskGroup>)
    requires MaximalRuns(before, packages)
    ensures MaximalRuns(groups, packages + [package])
  {
    hide MaximalRuns;
    if before == [] || before[|before| - 1].action != package.action || before[|before| - 1].system != package.system {
      groups := before + [TaskGroup(package.action, package.system, [], package.flags, "", false, [])];
    } else {
      var back := before[|before| - 1];
      groups := before[|before| - 1 := back.(flags := MergedFlags(back.flags, package.flags))];
    }
    var last := groups[|groups| - 1];
    last := last.(packages := last.packages + [package]);
    if package.localTarget {
      last := last.(usesLocalTarget := true, localPath := package.sourcePath);
    }
    groups := groups[|groups| - 1 := last];
    if before == [] || before[|before| - 1].action != package.action || before[|before| - 1].system != package.system {
      OpenGroup(before, packages, package, last);
      assert groups == before + [last];
    } else {
      NoConsumers(before, packages);
      ExtendGroup(before, packages, package, last);
      assert groups == before[|before| - 1 := last];
    }
  }

  /** The loop of createFromGraph over the ordered vertices. */
  method GroupRuns(g: Graph, order: seq<nat>) returns (groups: seq<TaskGroup>)
    requires OrderInRange(g, order)
    ensures MaximalRuns(groups, PackagesAt(g, order))
  {
    hide MaximalRuns;
    groups := [];
    ghost var packages := PackagesAt(g, order);
    NoGroups();
    for k := 0 to |order|
      invariant MaximalRuns(groups, packages[..k])
    {
      assert packages[..k + 1] == packages[..k] + [packages[k]];
      groups := AppendPackage(groups, packages[..k], g.vertices[order[k]]);
    }
    assert packages[..|order|] == packages;
  }

  lemma NoConsumers(groups: seq<TaskGroup>, packages: seq<Package>)
    requires MaximalRuns(groups, packages) && groups != []
    ensures groups[|groups| - 1].nixSoftSkipConsumers == []
  {
  }

  // --------------------------------------------- package keys and their groups

  function KeyOf(p: Package): string {
    p.system + "\n" + p.name + "\n" + p.version
  }

  predicate NewlineFree(p: Package) {
    '\n' !in p.system && '\n' !in p.name && '\n' !in p.version
  }

  /** Keys tell apart what differs in system, name or version, and nothing else. */
  lemma KeysTellApart(p: Package, q: Package)
    requires NewlineFree(p) && NewlineFree(q)
    ensures KeyOf(p) == KeyOf(q) <==> p.system == q.system && p.name == q.name && p.version == q.version
  {
    KeySplits(p);
    KeySplits(q);
    FieldLines.SplitUnique('\n', p.system, p.name + ['\n'] + p.version, q.system, q.name + ['\n'] + q.version);
    FieldLines.SplitUnique('\n', p.name, p.version, q.name, q.version);
  }

  lemma KeySplits(p: Package)
    ensures KeyOf(p) == p.system + ['\n'] + (p.name + ['\n'] + p.version)
  {
  }

  ghost predicate UniqueKeys(g: Graph) {
    forall u, v :: 0 <= u < v < |g.vertices| ==> KeyOf(g.vertices[u]) != KeyOf(g.vertices[v])
  }

  predicate Holds(group: TaskGroup, key: string) {
    exists p :: p in group.packages && KeyOf(p) == key
  }

  predicate IsNix(system: string) {
    system == "nix"
  }

  predicate NixToOther(g: Graph, e: (nat, nat)) {
    e.0 < |g.vertices| && e.1 < |g.vertices| && IsNix(g.vertices[e.0].system) && !IsNix(g.vertices[e.1].system)
  }

  function KeyAt(g: Graph, v: nat): string {
    if v < |g.vertices| then KeyOf(g.vertices[v]) else ""
  }

  /** Groups i and j hold the ends of package edge e; on Windows edges from nix to another system do not count. */
  ghost predicate Connects(g: Graph, windows: bool, groups: seq<TaskGroup>, e: (nat, nat), i: nat, j: nat) {
    && e in g.edges && i < |groups| && j < |groups|
    && Holds(groups[i], KeyAt(g, e.0)) && Holds(groups[j], KeyAt(g, e.1))
    && !(windows && NixToOther(g, e))
  }

  /** Package edges lead to the same or a later group. */
  ghost predicate EdgesAhead(g: Graph, windows: bool, groups: seq<TaskGroup>) {
    forall e, i: nat, j: nat :: Connects(g, windows, groups, e, i, j) ==> i <= j
  }

  ghost predicate NixBehind(groups: seq<TaskGroup>) {
    forall i, j :: 0 <= i < j < |groups| && IsNix(groups[i].system) ==> IsNix(groups[j].system)
  }

  ghost predicate Respects(g: Graph, windows: bool, groups: seq<TaskGroup>) {
    EdgesAhead(g, windows, groups) && (windows ==> NixBehind(groups))
  }

  // ------------------------------------------------- which group a package joins

  /** What filterExecutable asks of the plugins: gateway systems, systems whose plugin loads, and
      whether a plugin reports a package as missing. */
  datatype Plugins = Plugins(gateway: string -> bool, loads: string -> bool, missing: (string, Package) -> bool)

  predicate UsesMissingFilter(action: Action) {
    action == INSTALL || action == ENSURE || action == REMOVE || action == UPDATE
  }

  /** Packages k - 1 and k of a list belong to different groups. */
  predicate SplitsAt(packages: seq<Package>, k: nat) {
    0 < k < |packages| &&
    (packages[k - 1].action != packages[k].action || packages[k - 1].system != packages[k].system)
  }

  /** Package a stands behind package b, in another run of equal action and system. */
  ghost predicate LaterRun(packages: seq<Package>, b: nat, a: nat) {
    exists k :: b < k <= a && SplitsAt(packages, k)
  }

  /** Package a joins a later group than package b: on Windows by the partition first, then by the runs. */
  ghost predicate LaterGroup(windows: bool, packages: seq<Package>, b: nat, a: nat)
    requires a < |packages| && b < |packages|
  {
    if windows && IsNix(packages[b].system) != IsNix(packages[a].system) then IsNix(packages[a].system)
    else LaterRun(packages, b, a)
  }

  /** A local package is in the group of package a. */
  ghost predicate JoinsLocal(windows: bool, packages: seq<Package>, a: nat)
    requires a < |packages|
  {
    exists b :: 0 <= b < |packages| && !LaterGroup(windows, packages, a, b) && !LaterGroup(windows, packages, b, a) && packages[b].localTarget
  }

  /** Package a is left in its group: always, or with a filter unless its plugin is asked and does not report it. */
  ghost predicate Kept(windows: bool, filter: Option<Plugins>, packages: seq<Package>, a: nat)
    requires a < |packages|
  {
    match filter
    case None => true
    case Some(plugins) =>
      var p := packages[a];
      || !UsesMissingFilter(p.action) || plugins.gateway(p.system) || !plugins.loads(p.system)
      || JoinsLocal(windows, packages, a) || plugins.missing(p.system, p)
  }

  ghost predicate MemberAt(packages: seq<Package>, at: map<nat, nat>, i: nat, p: Package) {
    exists a :: a in at && a < |packages| && at[a] == i && packages[a] == p
  }

  /** The groups consist of the kept packages of a list, package a in group at[a]; later groups are those the
      list makes later. */
  ghost predicate Placed(windows: bool, filter: Option<Plugins>, packages: seq<Package>, groups: seq<TaskGroup>, at: map<nat, nat>) {
    && (forall a: nat :: a in at <==> a < |packages| && Kept(windows, filter, packages, a))
    && (forall a: nat :: a in at ==>
          at[a] < |groups| && groups[at[a]].action == packages[a].action && groups[at[a]].system == packages[a].system)
    && (forall i: nat, p :: i < |groups| ==> (p in groups[i].packages <==> MemberAt(packages, at, i, p)))
    && (forall a: nat, b: nat :: a in at && b in at ==> (at[b] < at[a] <==> LaterGroup(windows, packages, b, a)))
    && (forall i :: 0 <= i < |groups| ==> groups[i].packages != [])
  }

  /** The group package a of all packages is in. */
  function GroupAt(groups: seq<TaskGroup>, a: nat): nat {
    if groups == [] then 0
    else
      var n := |groups| - 1;
      if a < |AllPackages(groups[..n])| then GroupAt(groups[..n], a) else n
  }

  lemma {:induction false} GroupAtHolds(groups: seq<TaskGroup>, a: nat)
    requires a < |AllPackages(groups)|
    ensures GroupAt(groups, a) < |groups| && AllPackages(groups)[a] in groups[GroupAt(groups, a)].packages
  {
    var n := |groups| - 1;
    var rest := AllPackages(groups[..n]);
    if a < |rest| {
      GroupAtHolds(groups[..n], a);
    } else {
      assert AllPackages(groups)[a] == groups[n].packages[a - |rest|];
    }
  }

  lemma {:induction false} GroupMemberAt(groups: seq<TaskGroup>, i: nat, p: Package) returns (a: nat)
    requires i < |groups| && p in groups[i].packages
    ensures a < |AllPackages(groups)| && AllPackages(groups)[a] == p && GroupAt(groups, a) == i
  {
    var n := |groups| - 1;
    if i < n {
      a := GroupMemberAt(groups[..n], i, p);
    } else {
      var k :| 0 <= k < |groups[n].packages| && groups[n].packages[k] == p;
      a := |AllPackages(groups[..n])| + k;
    }
  }

  lemma RunsPrefix(groups: seq<TaskGroup>, packages: seq<Package>)
    requires MaximalRuns(groups, packages) && groups != []
    ensures MaximalRuns(groups[..|groups| - 1], AllPackages(groups[..|groups| - 1]))
  {
  }

  lemma LastAt(groups: seq<TaskGroup>, packages: seq<Package>)
    requires MaximalRuns(groups, packages) && groups != []
    ensures packages != [] && GroupAt(groups, |packages| - 1) == |groups| - 1
  {
    assert Groups(groups[|groups| - 1], groups[|groups| - 1].packages);
    hide Groups;
  }

  /** From one package to the next the group changes exactly where action or system do. */
  lemma {:induction false} GroupSteps(groups: seq<TaskGroup>, packages: seq<Package>, k: nat)
    requires MaximalRuns(groups, packages) && 0 < k < |packages|
    ensures GroupAt(groups, k) == GroupAt(groups, k - 1) + if SplitsAt(packages, k) then 1 else 0
  {
    var n := |groups| - 1;
    var init := groups[..n];
    var rest := AllPackages(init);
    RunsPrefix(groups, packages);
    if k < |rest| {
      GroupSteps(init, rest, k);
    } else {
      MemberIs(groups, packages, k);
      MemberIs(groups, packages, k - 1);
      hide MaximalRuns;
      if k == |rest| {
        LastAt(init, rest);
        SplitBetween(groups, packages);
      }
    }
  }

  lemma SplitBetween(groups: seq<TaskGroup>, packages: seq<Package>)
    requires MaximalRuns(groups, packages) && |groups| > 1
    ensures var n := |groups| - 1; groups[n - 1].action != groups[n].action || groups[n - 1].system != groups[n].system
  {
  }

  lemma MemberIs(groups: seq<TaskGroup>, packages: seq<Package>, a: nat)
    requires MaximalRuns(groups, packages) && a < |packages|
    ensures GroupAt(groups, a) < |groups|
    ensures var group := groups[GroupAt(groups, a)]; group.action == packages[a].action && group.system == packages[a].system
  {
    GroupAtHolds(groups, a);
    var i := GroupAt(groups, a);
    assert Groups(groups[i], groups[i].packages);
  }

  lemma {:induction false} GroupOrder(groups: seq<TaskGroup>, packages: seq<Package>, b: nat, a: nat)
    requires MaximalRuns(groups, packages) && b <= a < |packages|
    ensures GroupAt(groups, b) <= GroupAt(groups, a)
    ensures GroupAt(groups, b) < GroupAt(groups, a) <==> LaterRun(packages, b, a)
    decreases a
  {
    hide MaximalRuns, SplitsAt, GroupAt;
    if b < a {
      GroupOrder(groups, packages, b, a - 1);
      GroupSteps(groups, packages, a);
      if LaterRun(packages, b, a) && !LaterRun(packages, b, a - 1) {
        var k :| b < k <= a && SplitsAt(packages, k);
        assert k == a;
      }
      if LaterRun(packages, b, a - 1) {
        var k :| b < k <= a - 1 && SplitsAt(packages, k);
        assert b < k <= a;
      }
    }
  }

  /** The maximal runs of a list: every package in the run it stands in. */
  lemma RunsArePlaced(groups: seq<TaskGroup>, packages: seq<Package>) returns (at: map<nat, nat>)
    requires MaximalRuns(groups, packages)
    ensures Placed(false, None, packages, groups, at)
  {
    at := map a | a in Below(|packages|) :: GroupAt(groups, a);
    forall a: nat | a in at
      ensures at[a] < |groups| && groups[at[a]].action == packages[a].action && groups[at[a]].system == packages[a].system
    {
      MemberIs(groups, packages, a);
    }
    RunsHaveMembers(groups, packages);
    assert AllPackages(groups) == packages;
    hide MaximalRuns, GroupAt, Kept, LaterGroup, Groups, AllPackages;
    forall i: nat, p | i < |groups| ensures p in groups[i].packages <==> MemberAt(packages, at, i, p) {
      MembersOfRun(groups, packages, at, i, p);
    }
    forall a: nat, b: nat | a in at && b in at ensures at[b] < at[a] <==> LaterGroup(false, packages, b, a) {
      RunOrder(groups, packages, b, a);
    }
    forall a: nat | a < |packages| ensures Kept(false, None, packages, a) {
      AllKept(packages, a);
    }
    AssemblePlaced(false, None, packages, groups, at);
  }

  lemma AllKept(packages: seq<Package>, a: nat)
    requires a < |packages|
    ensures Kept(false, None, packages, a) && Kept(true, None, packages, a)
  {
  }

  lemma RunsHaveMembers(groups: seq<TaskGroup>, packages: seq<Package>)
    requires MaximalRuns(groups, packages)
    ensures forall i :: 0 <= i < |groups| ==> groups[i].packages != []
  {
    forall i | 0 <= i < |groups| ensures groups[i].packages != [] {
      assert Groups(groups[i], groups[i].packages);
    }
  }

  lemma RunOrder(groups: seq<TaskGroup>, packages: seq<Package>, b: nat, a: nat)
    requires MaximalRuns(groups, packages) && a < |packages| && b < |packages|
    ensures GroupAt(groups, b) < GroupAt(groups, a) <==> LaterGroup(false, packages, b, a)
  {
    hide MaximalRuns, GroupAt;
    if b <= a {
      GroupOrder(groups, packages, b, a);
    } else {
      GroupOrder(groups, packages, a, b);
    }
  }

  lemma MembersOfRun(groups: seq<TaskGroup>, packages: seq<Package>, at: map<nat, nat>, i: nat, p: Package)
    requires AllPackages(groups) == packages && i < |groups|
    requires forall a: nat :: a in at <==> a < |packages|
    requires forall a: nat :: a in at ==> at[a] == GroupAt(groups, a)
    ensures p in groups[i].packages <==> MemberAt(packages, at, i, p)
  {
    hide AllPackages, GroupAt;
    if p in groups[i].packages {
      var a := GroupMemberAt(groups, i, p);
      assert at[a] == i;
    }
    forall a: nat | a in at && a < |packages| && at[a] == i ensures packages[a] in groups[i].packages {
      GroupAtHolds(groups, a);
    }
  }

  /** A group uses a local target exactly when one of its packages is local. */
  ghost predicate LocalExact(group: TaskGroup) {
    group.usesLocalTarget <==> exists p :: p in group.packages && p.localTarget
  }

  lemma RunsAreLocalExact(groups: seq<TaskGroup>, packages: seq<Package>)
    requires MaximalRuns(groups, packages)
    ensures forall group :: group in groups ==> LocalExact(group)
  {
    forall group | group in groups ensures LocalExact(group) {
      var i :| 0 <= i < |groups| && groups[i] == group;
      assert Groups(groups[i], groups[i].packages);
      RunCarriesAll(group.packages);
      hide RunFlags, LastLocal;
    }
  }

  lemma HoldsIs(windows: bool, filter: Option<Plugins>, packages: seq<Package>, groups: seq<TaskGroup>, at: map<nat, nat>, i: nat, key: string)
    requires Placed(windows, filter, packages, groups, at) && i < |groups|
    ensures Holds(groups[i], key) <==> exists a: nat :: a in at && at[a] == i && KeyOf(packages[a]) == key
  {
    hide Kept, LaterGroup;
    if p :| p in groups[i].packages && KeyOf(p) == key {
      assert MemberAt(packages, at, i, p);
    }
    if a: nat :| a in at && at[a] == i && KeyOf(packages[a]) == key {
      assert MemberAt(packages, at, i, packages[a]);
    }
  }

  /** Groups placed along a topological order respect the package edges when keys are unique. */
  lemma PlacedRespectsEdges(g: Graph, order: seq<nat>, windows: bool, filter: Option<Plugins>, groups: seq<TaskGroup>, at: map<nat, nat>)
    requires InRange(g) && Topological(g, order) && UniqueKeys(g) && OrderInRange(g, order)
    requires Placed(windows, filter, PackagesAt(g, order), groups, at)
    ensures Respects(g, windows, groups)
  {
    var packages := PackagesAt(g, order);
    forall e, i: nat, j: nat | Connects(g, windows, groups, e, i, j) ensures i <= j {
      HoldsIs(windows, filter, packages, groups, at, i, KeyAt(g, e.0));
      HoldsIs(windows, filter, packages, groups, at, j, KeyAt(g, e.1));
      hide Kept;
      var a: nat :| a in at && at[a] == i && KeyOf(packages[a]) == KeyAt(g, e.0);
      var b: nat :| b in at && at[b] == j && KeyOf(packages[b]) == KeyAt(g, e.1);
      assert order[a] == e.0 && order[b] == e.1;
      EndsInOrder(g, order, e, a, b);
      assert !LaterRun(packages, b, a);
      assert !LaterGroup(windows, packages, b, a);
    }
    if windows {
      PlacedNixBehind(filter, packages, groups, at);
    }
  }

  lemma EndsInOrder(g: Graph, order: seq<nat>, e: (nat, nat), a: nat, b: nat)
    requires InRange(g) && Topological(g, order) && e in g.edges && a < |order| && b < |order|
    requires order[a] == e.0 && order[b] == e.1
    ensures a < b
  {
    var i, j :| 0 <= i < j < |order| && order[i] == e.0 && order[j] == e.1;
  }

  lemma PlacedNixBehind(filter: Option<Plugins>, packages: seq<Package>, groups: seq<TaskGroup>, at: map<nat, nat>)
    requires Placed(true, filter, packages, groups, at)
    ensures NixBehind(groups)
  {
    hide Kept;
    forall i, j | 0 <= i < j < |groups| && IsNix(groups[i].system) ensures IsNix(groups[j].system) {
      var p, q := groups[i].packages[0], groups[j].packages[0];
      assert MemberAt(packages, at, i, p) && MemberAt(packages, at, j, q);
      var a :| a in at && a < |packages| && at[a] == i && packages[a] == p;
      var b :| b in at && b < |packages| && at[b] == j && packages[b] == q;
      assert LaterGroup(true, packages, a, b);
    }
  }

  // ------------------------------------------------------- stable partition

  function IsOther(): TaskGroup -> bool {
    (group: TaskGroup) => !IsNix(group.system)
  }

  function OnlyNix(): TaskGroup -> bool {
    (group: TaskGroup) => IsNix(group.system)
  }

  /** std::stable_partition with the nix groups behind all others. */
  function NixLast(groups: seq<TaskGroup>): seq<TaskGroup> {
    Filter(IsOther(), groups) + Filter(OnlyNix(), groups)
  }

  /** result lists elements of source, in the order of source. */
  ghost predicate Picks<T>(source: seq<T>, result: seq<T>, origin: seq<nat>) {
    && |origin| == |result|
    && (forall i :: 0 <= i < |origin| ==> origin[i] < |source| && result[i] == source[origin[i]])
    && (forall i, j :: 0 <= i < j < |origin| ==> origin[i] < origin[j])
  }

  lemma PicksMore<T>(source: seq<T>, last: T, result: seq<T>, origin: seq<nat>)
    requires Picks(source, result, origin)
    ensures Picks(source + [last], result, origin)
    ensures Picks(source + [last], result + [last], origin + [|source|])
  {
  }

  lemma {:induction false} FilterPicks<T>(keep: T -> bool, s: seq<T>) returns (origin: seq<nat>)
    ensures Picks(s, Filter(keep, s), origin)
    ensures forall k: nat :: k < |s| ==> (k in origin <==> keep(s[k]))
  {
    origin := [];
    if s != [] {
      var n := |s| - 1;
      var picked := FilterPicks(keep, s[..n]);
      assert s == s[..n] + [s[n]];
      assert n !in picked;
      var rest := Filter(keep, s[..n]);
      assert Filter(keep, s) == if keep(s[n]) then rest + [s[n]] else rest;
      hide Filter;
      PicksMore(s[..n], s[n], rest, picked);
      hide Picks;
      origin := if keep(s[n]) then picked + [n] else picked;
      forall k: nat | k < |s| ensures k in origin <==> keep(s[k]) {
        MoreMembers(picked, n, k);
      }
    }
  }

  lemma MoreMembers(s: seq<nat>, last: nat, k: nat)
    ensures k in s + [last] <==> k in s || k == last
  {
  }

  /** The order of the partitioned list on indices of the source: nix behind others, each in source order. */
  predicate NixBefore(groups: seq<TaskGroup>, i: nat, j: nat)
    requires i < |groups| && j < |groups|
  {
    if IsNix(groups[i].system) != IsNix(groups[j].system) then IsNix(groups[j].system) else i < j
  }

  /** origin lists every index of the source once, in the order of the partition. */
  ghost predicate Partitions(groups: seq<TaskGroup>, result: seq<TaskGroup>, origin: seq<nat>) {
    && |origin| == |result|
    && (forall i :: 0 <= i < |origin| ==> origin[i] < |groups| && result[i] == groups[origin[i]])
    && (forall k: nat :: k < |groups| ==> k in origin)
    && (forall i, j :: 0 <= i < |origin| && 0 <= j < |origin| ==> (i < j <==> NixBefore(groups, origin[i], origin[j])))
  }

  /** The partition lists every group of the source, nix groups behind all others and otherwise in source order. */
  lemma NixLastOrigin(groups: seq<TaskGroup>) returns (origin: seq<nat>)
    ensures Partitions(groups, NixLast(groups), origin)
  {
    var others, nix := Filter(IsOther(), groups), Filter(OnlyNix(), groups);
    var originOthers := FilterPicks(IsOther(), groups);
    var originNix := FilterPicks(OnlyNix(), groups);
    hide Filter;
    origin := PartsJoin(groups, others, originOthers, nix, originNix);
  }

  lemma PartsJoin(groups: seq<TaskGroup>, others: seq<TaskGroup>, originOthers: seq<nat>, nix: seq<TaskGroup>, originNix: seq<nat>)
    returns (origin: seq<nat>)
    requires Picks(groups, others, originOthers) && Picks(groups, nix, originNix)
    requires forall k: nat :: k < |groups| ==> (k in originOthers <==> !IsNix(groups[k].system))
    requires forall k: nat :: k < |groups| ==> (k in originNix <==> IsNix(groups[k].system))
    ensures Partitions(groups, others + nix, origin)
  {
    origin := originOthers + originNix;
    PartsPicked(groups, others, originOthers, nix, originNix);
    forall i: nat, j: nat | i < j < |origin| ensures NixBefore(groups, origin[i], origin[j]) {
      PartsOrder(groups, others, originOthers, nix, originNix, i, j);
    }
    hide IsNix, Picks;
    forall i: nat, j: nat | i < |origin| && j < |origin| ensures i < j <==> NixBefore(groups, origin[i], origin[j]) {
      NixBeforeOneWay(groups, origin[i], origin[j]);
    }
  }

  lemma PartsPicked(groups: seq<TaskGroup>, others: seq<TaskGroup>, originOthers: seq<nat>, nix: seq<TaskGroup>, originNix: seq<nat>)
    requires Picks(groups, others, originOthers) && Picks(groups, nix, originNix)
    requires forall k: nat :: k < |groups| ==> k in originOthers || k in originNix
    ensures var origin := originOthers + originNix;
            && |origin| == |others + nix| && (forall k: nat :: k < |groups| ==> k in origin)
            && forall i :: 0 <= i < |origin| ==> origin[i] < |groups| && (others + nix)[i] == groups[origin[i]]
  {
  }

  lemma NixBeforeOneWay(groups: seq<TaskGroup>, i: nat, j: nat)
    requires i < |groups| && j < |groups|
    ensures !(NixBefore(groups, i, j) && NixBefore(groups, j, i))
  {
  }

  lemma PartsOrder(groups: seq<TaskGroup>, others: seq<TaskGroup>, originOthers: seq<nat>, nix: seq<TaskGroup>, originNix: seq<nat>, i: nat, j: nat)
    requires Picks(groups, others, originOthers) && Picks(groups, nix, originNix)
    requires forall k: nat :: k < |groups| ==> (k in originOthers <==> !IsNix(groups[k].system))
    requires forall k: nat :: k < |groups| ==> (k in originNix <==> IsNix(groups[k].system))
    requires i < j < |originOthers + originNix|
    ensures var origin := originOthers + originNix;
            origin[i] < |groups| && origin[j] < |groups| && NixBefore(groups, origin[i], origin[j])
  {
    hide IsNix;
    var origin := originOthers + originNix;
    assert origin[i] in (if i < |originOthers| then originOthers else originNix);
    assert origin[j] in (if j < |originOthers| then originOthers else originNix);
  }

  ghost function IndexIn(s: seq<nat>, x: nat): (i: nat)
    requires x in s
    ensures i < |s| && s[i] == x
  {
    var i :| 0 <= i < |s| && s[i] == x;
    i
  }

  /** The partitioned runs of a list: every package in the run it stands in. */
  lemma PartitionIsPlaced(packages: seq<Package>, groups: seq<TaskGroup>, at: map<nat, nat>) returns (moved: map<nat, nat>)
    requires Placed(false, None, packages, groups, at)
    ensures Placed(true, None, packages, NixLast(groups), moved)
  {
    var origin := NixLastOrigin(groups);
    var result := NixLast(groups);
    hide NixLast;
    moved := map a: nat | a in at :: IndexIn(origin, at[a]);
    forall i: nat, p | i < |result| ensures p in result[i].packages <==> MemberAt(packages, moved, i, p) {
      PartitionMembers(packages, groups, at, result, origin, moved, i, p);
    }
    forall a: nat, b: nat | a in moved && b in moved ensures moved[b] < moved[a] <==> LaterGroup(true, packages, b, a) {
      assert at[b] < at[a] <==> LaterGroup(false, packages, b, a);
      assert NixBefore(groups, at[b], at[a]) <==> LaterGroup(true, packages, b, a);
    }
    hide LaterGroup, MemberAt, NixBefore;
  }

  lemma PartitionMembers(packages: seq<Package>, groups: seq<TaskGroup>, at: map<nat, nat>, result: seq<TaskGroup>, origin: seq<nat>,
                         moved: map<nat, nat>, i: nat, p: Package)
    requires Placed(false, None, packages, groups, at) && Partitions(groups, result, origin) && i < |result|
    requires forall a: nat :: a in moved <==> a in at
    requires forall a: nat :: a in at ==> moved[a] == IndexIn(origin, at[a])
    ensures p in result[i].packages <==> MemberAt(packages, moved, i, p)
  {
    hide LaterGroup;
    assert p in groups[origin[i]].packages <==> MemberAt(packages, at, origin[i], p);
    if MemberAt(packages, at, origin[i], p) {
      var a :| a in at && a < |packages| && at[a] == origin[i] && packages[a] == p;
      assert moved[a] == i;
    }
    if MemberAt(packages, moved, i, p) {
      var a :| a in moved && a < |packages| && moved[a] == i && packages[a] == p;
      assert at[a] == origin[i];
    }
  }

  lemma PartitionIsLocalExact(groups: seq<TaskGroup>)
    requires forall group :: group in groups ==> LocalExact(group)
    ensures forall group :: group in NixLast(groups) ==> LocalExact(group)
  {
    hide LocalExact;
    FilterMembers(IsOther(), groups);
    FilterMembers(OnlyNix(), groups);
  }

  /** createFromGraph, from whatever order boost::topological_sort produced. */
  method CreateFromGraph(g: Graph, topological: seq<nat>, windows: bool)
    returns (groups: seq<TaskGroup>, ghost order: seq<nat>, ghost levels: seq<nat>, ghost at: map<nat, nat>)
    requires InRange(g) && Topological(g, topological)
    ensures LongestPaths(g, levels) && order == StableSort(VertexLess(g, levels), topological)
    ensures Topological(g, order) && OrderInRange(g, order)
    ensures !windows ==> MaximalRuns(groups, PackagesAt(g, order))
    ensures windows ==> exists runs :: MaximalRuns(runs, PackagesAt(g, order)) && groups == NixLast(runs)
    ensures Placed(windows, None, PackagesAt(g, order), groups, at)
    ensures forall group :: group in groups ==> LocalExact(group)
    ensures UniqueKeys(g) ==> Respects(g, windows, groups)
  {
    hide Topological, MaximalRuns, UniqueKeys, Respects, LongestPaths, StableSort, Placed, LocalExact, NixLast;
    var sorted;
    sorted, levels := OrderedVertices(g, topological);
    order := sorted;
    TopologicalInRange(g, sorted);
    groups := GroupRuns(g, sorted);
    at := RunsArePlaced(groups, PackagesAt(g, sorted));
    RunsAreLocalExact(groups, PackagesAt(g, sorted));
    if windows {
      at := PartitionIsPlaced(PackagesAt(g, sorted), groups, at);
      PartitionIsLocalExact(groups);
      groups := NixLast(groups);
    }
    if UniqueKeys(g) {
      PlacedRespectsEdges(g, sorted, windows, None, groups, at);
    }
  }

  lemma TopologicalInRange(g: Graph, order: seq<nat>)
    requires Topological(g, order)
    ensures OrderInRange(g, order)
  {
    assert forall k :: 0 <= k < |order| ==> order[k] in order;
  }

  // ------------------------------------------------------- filterExecutable

  function WithAction(p: Package, action: Action): Package {
    if p.action == UNKNOWN then p.(action := action) else p
  }

  /** The packages a plugin reports as missing, with the action of the group where they have none. */
  function Missing(plugins: Plugins, group: TaskGroup, packages: seq<Package>): seq<Package> {
    if packages == [] then []
    else
      var p := WithAction(packages[|packages| - 1], group.action);
      Missing(plugins, group, packages[..|packages| - 1]) + (if plugins.missing(group.system, p) then [p] else [])
  }

  predicate Unfiltered(plugins: Plugins, group: TaskGroup) {
    !UsesMissingFilter(group.action) || plugins.gateway(group.system) || !plugins.loads(group.system) || group.usesLocalTarget
  }

  lemma {:induction false} MissingKeys(plugins: Plugins, group: TaskGroup, packages: seq<Package>)
    ensures forall p :: p in Missing(plugins, group, packages) <==>
              plugins.missing(group.system, p) && exists q :: q in packages && p == WithAction(q, group.action)
    ensures forall p :: p in Missing(plugins, group, packages) ==>
              exists q :: q in packages && q.system == p.system && KeyOf(q) == KeyOf(p)
  {
    if packages != [] {
      var rest, last := packages[..|packages| - 1], packages[|packages| - 1];
      assert packages == rest + [last];
      MissingKeys(plugins, group, rest);
      assert KeyOf(WithAction(last, group.action)) == KeyOf(last) && last in packages;
      forall p ensures p in Missing(plugins, group, packages) <==>
              plugins.missing(group.system, p) && exists q :: q in packages && p == WithAction(q, group.action) {
        if p in Missing(plugins, group, rest) {
          var q :| q in rest && p == WithAction(q, group.action);
          assert q in packages;
        }
      }
      forall p | p in Missing(plugins, group, packages) ensures exists q :: q in packages && q.system == p.system && KeyOf(q) == KeyOf(p) {
        if p in Missing(plugins, group, rest) {
          var q :| q in rest && q.system == p.system && KeyOf(q) == KeyOf(p);
          assert q in packages;
        }
      }
    }
  }

  /** What is left of a group to do. */
  function Remaining(plugins: Plugins, group: TaskGroup): TaskGroup {
    if Unfiltered(plugins, group) then group
    else group.(packages := Missing(plugins, group, group.packages))
  }

  /** result keeps the order of source and shrinks its groups, and drops only those with nothing left to do. */
  ghost predicate Filters(plugins: Plugins, source: seq<TaskGroup>, result: seq<TaskGroup>, origin: seq<nat>) {
    && |origin| == |result|
    && (forall i, j :: 0 <= i < j < |origin| ==> origin[i] < origin[j])
    && (forall i :: 0 <= i < |origin| ==>
          origin[i] < |source| && result[i] == Remaining(plugins, source[origin[i]]) && result[i].packages != [])
    && (forall k: nat :: k < |source| && k !in origin ==> Remaining(plugins, source[k]).packages == [])
  }

  lemma FilterDrops(plugins: Plugins, source: seq<TaskGroup>, group: TaskGroup, result: seq<TaskGroup>, origin: seq<nat>)
    requires Filters(plugins, source, result, origin) && Remaining(plugins, group).packages == []
    ensures Filters(plugins, source + [group], result, origin)
  {
    hide Remaining;
  }

  lemma FilterKeeps(plugins: Plugins, source: seq<TaskGroup>, group: TaskGroup, result: seq<TaskGroup>, origin: seq<nat>)
    requires Filters(plugins, source, result, origin) && Remaining(plugins, group).packages != []
    ensures Filters(plugins, source + [group], result + [Remaining(plugins, group)], origin + [|source|])
  {
    hide Remaining;
    var origin' := origin + [|source|];
    assert forall k :: k in origin' <==> k in origin || k == |source|;
  }

  method FilterExecutable(plugins: Plugins, groups: seq<TaskGroup>) returns (filtered: seq<TaskGroup>, ghost origin: seq<nat>)
    ensures Filters(plugins, groups, filtered, origin)
    ensures exists places: seq<nat> :: Filters(plugins, groups, filtered, places)
  {
    filtered, origin := [], [];
    for k := 0 to |groups|
      invariant Filters(plugins, groups[..k], filtered, origin)
    {
      hide Filters;
      var group := groups[k];
      assert groups[..k + 1] == groups[..k] + [group];
      if group.packages == [] {
        FilterDrops(plugins, groups[..k], group, filtered, origin);
        continue;
      }
      if Unfiltered(plugins, group) {
        FilterKeeps(plugins, groups[..k], group, filtered, origin);
        filtered, origin := filtered + [group], origin + [k];
      } else {
        var missing := group.(packages := Missing(plugins, group, group.packages));
        if missing.packages == [] {
          FilterDrops(plugins, groups[..k], group, filtered, origin);
        } else {
          FilterKeeps(plugins, groups[..k], group, filtered, origin);
          filtered, origin := filtered + [missing], origin + [k];
        }
      }
    }
    assert groups[..|groups|] == groups;
  }

  lemma RemainingMembers(plugins: Plugins, group: TaskGroup, p: Package)
    requires forall q :: q in group.packages ==> q.action == group.action && q.system == group.system
    ensures p in Remaining(plugins, group).packages <==>
            p in group.packages && (Unfiltered(plugins, group) || plugins.missing(p.system, p))
  {
    if !Unfiltered(plugins, group) {
      MissingKeys(plugins, group, group.packages);
      assert forall q :: q in group.packages ==> WithAction(q, group.action) == q;
    }
  }

  lemma JoinsLocalIs(windows: bool, packages: seq<Package>, groups: seq<TaskGroup>, at: map<nat, nat>, a: nat)
    requires Placed(windows, None, packages, groups, at) && a in at && LocalExact(groups[at[a]])
    ensures JoinsLocal(windows, packages, a) <==> groups[at[a]].usesLocalTarget
  {
    hide LaterGroup;
    if JoinsLocal(windows, packages, a) {
      var b :| 0 <= b < |packages| && !LaterGroup(windows, packages, a, b) && !LaterGroup(windows, packages, b, a) && packages[b].localTarget;
      assert b in at && at[b] == at[a];
      assert MemberAt(packages, at, at[a], packages[b]);
    }
    if p :| p in groups[at[a]].packages && p.localTarget {
      assert MemberAt(packages, at, at[a], p);
      var b :| b in at && b < |packages| && at[b] == at[a] && packages[b] == p;
      assert !LaterGroup(windows, packages, a, b) && !LaterGroup(windows, packages, b, a);
    }
  }

  lemma KeptIs(windows: bool, plugins: Plugins, packages: seq<Package>, groups: seq<TaskGroup>, at: map<nat, nat>, a: nat)
    requires Placed(windows, None, packages, groups, at) && a in at && LocalExact(groups[at[a]])
    ensures Kept(windows, Some(plugins), packages, a) <==> packages[a] in Remaining(plugins, groups[at[a]]).packages
  {
    JoinsLocalIs(windows, packages, groups, at, a);
    PlacedGroup(windows, None, packages, groups, at, at[a]);
    assert MemberAt(packages, at, at[a], packages[a]);
    RemainingMembers(plugins, groups[at[a]], packages[a]);
    hide LaterGroup, JoinsLocal, Remaining, MemberAt;
  }

  lemma PlacedGroup(windows: bool, filter: Option<Plugins>, packages: seq<Package>, groups: seq<TaskGroup>, at: map<nat, nat>, i: nat)
    requires Placed(windows, filter, packages, groups, at) && i < |groups|
    ensures forall q :: q in groups[i].packages ==> q.action == groups[i].action && q.system == groups[i].system
  {
    hide LaterGroup, Kept;
    forall q | q in groups[i].packages ensures q.action == groups[i].action && q.system == groups[i].system {
      assert MemberAt(packages, at, i, q);
    }
  }

  /** Filtering leaves every kept package in the group it was in. */
  lemma FilterIsPlaced(windows: bool, plugins: Plugins, packages: seq<Package>, source: seq<TaskGroup>, at: map<nat, nat>,
                       result: seq<TaskGroup>, origin: seq<nat>)
    returns (moved: map<nat, nat>)
    requires Placed(windows, None, packages, source, at) && Filters(plugins, source, result, origin)
    requires forall group :: group in source ==> LocalExact(group)
    ensures Placed(windows, Some(plugins), packages, result, moved)
    ensures forall a: nat :: a in moved ==>
              a in at && at[a] < |source| && moved[a] < |result| && result[moved[a]].flags == source[at[a]].flags
  {
    assert forall a: nat :: a in at <==> a < |packages|;
    FilterDomain(windows, plugins, packages, source, at, result, origin);
    hide Placed, Kept, LaterGroup, LocalExact, Remaining, Filters;
    moved := map a: nat | a in at && at[a] in origin && Kept(windows, Some(plugins), packages, a) :: IndexIn(origin, at[a]);
    forall i: nat, p | i < |result| ensures p in result[i].packages <==> MemberAt(packages, moved, i, p) {
      FilterMembersAt(windows, plugins, packages, source, at, result, origin, moved, i, p);
    }
    FilterKeepsOrder(windows, plugins, packages, source, at, result, origin, moved);
    FilterKeepsFlags(plugins, source, at, result, origin, moved);
    AssemblePlaced(windows, Some(plugins), packages, result, moved);
  }

  lemma FilterKeepsFlags(plugins: Plugins, source: seq<TaskGroup>, at: map<nat, nat>, result: seq<TaskGroup>, origin: seq<nat>, moved: map<nat, nat>)
    requires Filters(plugins, source, result, origin)
    requires forall a: nat :: a in moved ==> a in at && at[a] in origin && moved[a] == IndexIn(origin, at[a])
    ensures forall a: nat :: a in moved ==> at[a] < |source| && moved[a] < |result| && result[moved[a]].flags == source[at[a]].flags
  {
    hide Missing, Unfiltered;
  }

  lemma AssemblePlaced(windows: bool, filter: Option<Plugins>, packages: seq<Package>, groups: seq<TaskGroup>, at: map<nat, nat>)
    requires forall a: nat :: a in at <==> a < |packages| && Kept(windows, filter, packages, a)
    requires forall a: nat :: a in at ==>
               at[a] < |groups| && groups[at[a]].action == packages[a].action && groups[at[a]].system == packages[a].system
    requires forall i: nat, p :: i < |groups| ==> (p in groups[i].packages <==> MemberAt(packages, at, i, p))
    requires forall a: nat, b: nat :: a in at && b in at ==> (at[b] < at[a] <==> LaterGroup(windows, packages, b, a))
    requires forall i :: 0 <= i < |groups| ==> groups[i].packages != []
    ensures Placed(windows, filter, packages, groups, at)
  {
    hide Kept, LaterGroup, MemberAt;
  }

  lemma FilterDomain(windows: bool, plugins: Plugins, packages: seq<Package>, source: seq<TaskGroup>, at: map<nat, nat>,
                     result: seq<TaskGroup>, origin: seq<nat>)
    requires Placed(windows, None, packages, source, at) && Filters(plugins, source, result, origin)
    requires forall group :: group in source ==> LocalExact(group)
    ensures forall a: nat :: a in at ==> a < |packages| && at[a] < |source|
    ensures forall a: nat :: a in at ==>
              && (Kept(windows, Some(plugins), packages, a) <==> packages[a] in Remaining(plugins, source[at[a]]).packages)
              && (Kept(windows, Some(plugins), packages, a) ==> at[a] in origin)
  {
    forall a: nat | a in at
      ensures Kept(windows, Some(plugins), packages, a) <==> packages[a] in Remaining(plugins, source[at[a]]).packages
      ensures Kept(windows, Some(plugins), packages, a) ==> at[a] in origin
    {
      assert source[at[a]] in source;
      KeptIs(windows, plugins, packages, source, at, a);
      hide Kept, LaterGroup, LocalExact, Remaining;
    }
  }

  lemma FilterKeepsOrder(windows: bool, plugins: Plugins, packages: seq<Package>, source: seq<TaskGroup>, at: map<nat, nat>,
                         result: seq<TaskGroup>, origin: seq<nat>, moved: map<nat, nat>)
    requires Placed(windows, None, packages, source, at) && Filters(plugins, source, result, origin)
    requires forall a: nat :: a in moved ==> a in at && at[a] in origin && moved[a] == IndexIn(origin, at[a])
    ensures forall a: nat, b: nat :: a in moved && b in moved ==> (moved[b] < moved[a] <==> LaterGroup(windows, packages, b, a))
    ensures forall a: nat :: a in moved ==>
              moved[a] < |result| && result[moved[a]].action == packages[a].action && result[moved[a]].system == packages[a].system
    ensures forall i :: 0 <= i < |result| ==> result[i].packages != []
  {
    hide Kept, LaterGroup, MemberAt;
    forall a: nat, b: nat | a in moved && b in moved ensures moved[b] < moved[a] <==> LaterGroup(windows, packages, b, a) {
      FilterOrder(plugins, source, result, origin, moved[b], moved[a]);
    }
  }

  lemma FilterOrder(plugins: Plugins, source: seq<TaskGroup>, result: seq<TaskGroup>, origin: seq<nat>, i: nat, j: nat)
    requires Filters(plugins, source, result, origin) && i < |origin| && j < |origin|
    ensures i < j <==> origin[i] < origin[j]
  {
    hide Remaining;
  }

  lemma FilterMembersAt(windows: bool, plugins: Plugins, packages: seq<Package>, source: seq<TaskGroup>, at: map<nat, nat>,
                        result: seq<TaskGroup>, origin: seq<nat>, moved: map<nat, nat>, i: nat, p: Package)
    requires Placed(windows, None, packages, source, at) && Filters(plugins, source, result, origin) && i < |result|
    requires forall a: nat :: a in moved <==> a in at && at[a] in origin && packages[a] in Remaining(plugins, source[at[a]]).packages
    requires forall a: nat :: a in moved ==> moved[a] == IndexIn(origin, at[a])
    ensures p in result[i].packages <==> MemberAt(packages, moved, i, p)
  {
    var from := source[origin[i]];
    PlacedGroup(windows, None, packages, source, at, origin[i]);
    RemainingMembers(plugins, from, p);
    assert p in from.packages <==> MemberAt(packages, at, origin[i], p);
    assert result[i] == Remaining(plugins, from);
    assert forall a: nat :: a in at ==> a < |packages|;
    assert Distinct(origin);
    hide LaterGroup, Kept, Remaining, Placed, Filters;
    MovedMember(packages, at, origin, moved, i, p, Remaining(plugins, from).packages);
  }

  lemma MovedMember(packages: seq<Package>, at: map<nat, nat>, origin: seq<nat>, moved: map<nat, nat>, i: nat, p: Package, remaining: seq<Package>)
    requires i < |origin| && Distinct(origin) && forall a: nat :: a in moved ==> a in at && a < |packages| && at[a] in origin
    requires forall a: nat :: a in at && a < |packages| && at[a] == origin[i] ==> (a in moved <==> packages[a] in remaining)
    requires forall a: nat :: a in moved ==> moved[a] == IndexIn(origin, at[a])
    requires p in remaining ==> MemberAt(packages, at, origin[i], p)
    ensures p in remaining <==> MemberAt(packages, moved, i, p)
  {
    if p in remaining {
      var a :| a in at && a < |packages| && at[a] == origin[i] && packages[a] == p;
      assert moved[a] == i;
    }
    if MemberAt(packages, moved, i, p) {
      var a :| a in moved && a < |packages| && moved[a] == i && packages[a] == p;
      assert at[a] == origin[i];
    }
  }
}
