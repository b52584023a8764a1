/**
 * The level computation of the spec dependency graph
 * (src/lib/agents/ticket-creation/specs/migration-specs/build-dependency-graph.js): a
 * depth-first walk that gives every spec its dependency level, the grouping of specs by level,
 * and the statistics written to the index.
 */
module SpecLevels {
  import opened Wrappers
  import opened JsString
  import opened Records
  import opened SpecParsers
  import opened SpecGraph

  /** The resolved dependencies of every spec of the index. */
  type Graph = Entries<seq<ResolvedDep>>

  /** `resolvedDeps.get(specPath) || []`. */
  function DepsOf(g: Graph, s: string): (r: seq<ResolvedDep>)
    ensures r != [] ==> Lookup(g, s) == Some(r)
  {
    var d := Lookup(g, s);
    if d.Some? then d.value else []
  }

  /** Every spec the walk can meet: the index's specs, their dependencies, and the spec files. */
  ghost function Nodes(g: Graph, specs: seq<string>): set<string> {
    (set i | 0 <= i < |g| :: g[i].0)
    + (set i, j | 0 <= i < |g| && 0 <= j < |g[i].1| :: g[i].1[j].spec)
    + (set i | 0 <= i < |specs| :: specs[i])
  }

  /** Every dependency target lies in `ns`. */
  ghost predicate Closed(g: Graph, ns: set<string>) {
    forall i, j | 0 <= i < |g| && 0 <= j < |g[i].1| :: g[i].1[j].spec in ns
  }

  lemma NodesClosed(g: Graph, specs: seq<string>)
    ensures Closed(g, Nodes(g, specs))
  {
    forall i, j | 0 <= i < |g| && 0 <= j < |g[i].1| ensures g[i].1[j].spec in Nodes(g, specs) {
      assert g[i].1[j].spec in (set i, j | 0 <= i < |g| && 0 <= j < |g[i].1| :: g[i].1[j].spec);
    }
  }

  lemma DepsClosed(g: Graph, ns: set<string>, s: string)
    requires Closed(g, ns)
    ensures forall j | 0 <= j < |DepsOf(g, s)| :: DepsOf(g, s)[j].spec in ns
  {
    var ds := DepsOf(g, s);
    if ds != [] {
      var i :| 0 <= i < |g| && g[i] == (s, ds);
      forall j | 0 <= j < |ds| ensures ds[j].spec in ns {
        assert g[i].1[j].spec == ds[j].spec;
      }
    }
  }

  /** No cycle: `rank` strictly decreases along every dependency. */
  ghost predicate Acyclic(g: Graph, rank: string -> nat) {
    forall i, j | 0 <= i < |g| && 0 <= j < |g[i].1| :: rank(g[i].1[j].spec) < rank(g[i].0)
  }

  lemma DepsRank(g: Graph, rank: string -> nat, s: string)
    requires Acyclic(g, rank)
    ensures forall j | 0 <= j < |DepsOf(g, s)| :: rank(DepsOf(g, s)[j].spec) < rank(s)
  {
    var ds := DepsOf(g, s);
    if ds != [] {
      var i :| 0 <= i < |g| && g[i] == (s, ds);
      forall j | 0 <= j < |ds| ensures rank(ds[j].spec) < rank(s) {
        assert g[i].1[j] == ds[j];
      }
    }
  }

  function Max(a: nat, b: nat): nat {
    if a < b then b else a
  }

  /**
   * The length of the longest dependency chain below `s`. The recursion follows `rank`
   * downwards; in an acyclic graph (the only one the lemmas speak of) every dependency is
   * followed.
   */
  ghost function Depth(g: Graph, rank: string -> nat, s: string): nat
    decreases rank(s), 1
  {
    var ds := DepsOf(g, s);
    if ds == [] then 0 else 1 + MaxDepth(g, rank, ds, rank(s))
  }

  /** `Math.max(0, ...)` of the depths of those of `ds` that rank below `bound`. */
  ghost function MaxDepth(g: Graph, rank: string -> nat, ds: seq<ResolvedDep>, bound: nat): nat
    decreases bound, 0, |ds|
  {
    if ds == [] then 0
    else
      var d := ds[|ds| - 1].spec;
      Max(MaxDepth(g, rank, ds[..|ds| - 1], bound), if rank(d) < bound then Depth(g, rank, d) else 0)
  }

  lemma {:induction false} MaxDepthMeaning(g: Graph, rank: string -> nat, ds: seq<ResolvedDep>, bound: nat)
    requires forall j | 0 <= j < |ds| :: rank(ds[j].spec) < bound
    ensures forall j | 0 <= j < |ds| :: Depth(g, rank, ds[j].spec) <= MaxDepth(g, rank, ds, bound)
    ensures ds != [] ==> exists j | 0 <= j < |ds| :: Depth(g, rank, ds[j].spec) == MaxDepth(g, rank, ds, bound)
    decreases |ds|
  {
    if ds != [] {
      var n := |ds| - 1;
      var pre := ds[..n];
      assert forall j | 0 <= j < n :: pre[j] == ds[j];
      var a := MaxDepth(g, rank, pre, bound);
      var b := Depth(g, rank, ds[n].spec);
      assert MaxDepth(g, rank, ds, bound) == Max(a, b);
      MaxDepthMeaning(g, rank, pre, bound);
      forall j | 0 <= j < |ds| ensures Depth(g, rank, ds[j].spec) <= Max(a, b) {
        if j < n {
          assert pre[j] == ds[j];
        }
      }
      if a <= b {
        assert Depth(g, rank, ds[n].spec) == Max(a, b);
      } else {
        var j :| 0 <= j < n && Depth(g, rank, pre[j].spec) == a;
        assert pre[j] == ds[j];
      }
    }
  }

  /**
   * The depth is the length of the longest dependency chain: a leaf has depth 0, every
   * dependency lies strictly lower, and some dependency lies exactly one lower.
   */
  lemma DepthIsLongestChain(g: Graph, rank: string -> nat, s: string)
    requires Acyclic(g, rank)
    ensures Depth(g, rank, s) == 0 <==> DepsOf(g, s) == []
    ensures forall j | 0 <= j < |DepsOf(g, s)| :: Depth(g, rank, DepsOf(g, s)[j].spec) < Depth(g, rank, s)
    ensures DepsOf(g, s) != [] ==>
      exists j | 0 <= j < |DepsOf(g, s)| :: Depth(g, rank, DepsOf(g, s)[j].spec) + 1 == Depth(g, rank, s)
  {
    DepsRank(g, rank, s);
    MaxDepthMeaning(g, rank, DepsOf(g, s), rank(s));
  }

  /** In an acyclic graph, every level recorded in `levels` is the spec's depth. */
  ghost predicate Recorded(g: Graph, levels: Entries<nat>, rank: string -> nat) {
    Acyclic(g, rank) && forall s | Lookup(levels, s).Some? :: Lookup(levels, s).value == Depth(g, rank, s)
  }

  /**
   * `spec` ranks below every spec in progress (`strict`), or at most as high; the walk can then
   * enter it without meeting a cycle.
   */
  ghost predicate Below(rank: string -> nat, spec: string, inProgress: set<string>, strict: bool) {
    forall p | p in inProgress :: if strict then rank(spec) < rank(p) else rank(spec) <= rank(p)
  }

  /** The state of the walk: `levels`, `visited` and `inProgress` over a fixed graph. */
  class LevelCalculator {
    const graph: Graph
    ghost const nodes: set<string>
    var levels: Entries<nat>
    var visited: set<string>
    var inProgress: set<string>

    ghost predicate Valid()
      reads this
    {
      Closed(graph, nodes) && visited !! inProgress && inProgress <= nodes && DistinctKeys(levels)
      && (forall s | s in visited :: Lookup(levels, s).Some?)
      && (forall s | Lookup(levels, s).Some? && DepsOf(graph, s) == [] :: Lookup(levels, s).value == 0)
    }

    constructor (graph: Graph, specFiles: seq<string>)
      ensures Valid() && this.graph == graph && nodes == Nodes(graph, specFiles)
      ensures levels == [] && visited == {} && inProgress == {}
    {
      NodesClosed(graph, specFiles);
      this.graph := graph;
      nodes := Nodes(graph, specFiles);
      levels := [];
      visited := {};
      inProgress := {};
    }

    /** Records `level` for `spec`, keeping the walk's invariant. */
    method SetLevel(spec: string, level: nat, ghost rank: string -> nat)
      requires Valid() && spec !in visited
      requires DepsOf(graph, spec) == [] ==> level == 0
      modifies this
      ensures Valid() && visited == old(visited) && inProgress == old(inProgress)
      ensures levels == Assign(old(levels), spec, level)
      ensures forall s :: Lookup(levels, s) == if s == spec then Some(level) else old(Lookup(levels, s))
      ensures Recorded(graph, old(levels), rank) && level == Depth(graph, rank, spec) ==>
        Recorded(graph, levels, rank)
    {
      LookupAssignEvery(levels, spec, level);
      AssignDistinct(levels, spec, level);
      levels := Assign(levels, spec, level);
    }

    /**
     * `calculateLevel`: the stored level of a visited spec, 0 on re-entering a spec in progress,
     * 0 for a leaf, else one more than the highest level among its dependencies. The walk
     * terminates because every nested call adds a spec to `inProgress`.
     */
    method CalculateLevel(spec: string, ghost rank: string -> nat) returns (level: nat)
      requires Valid() && spec in nodes
      modifies this
      ensures Valid() && inProgress == old(inProgress) && old(visited) <= visited
      ensures Lookup(levels, spec) == Some(level)
      ensures spec !in old(inProgress) ==> spec in visited
      ensures spec in old(inProgress) ==> level == 0
      ensures DepsOf(graph, spec) == [] ==> level == 0
      ensures spec !in old(visited) && spec !in old(inProgress) && DepsOf(graph, spec) != [] ==> level >= 1
      ensures forall s | s in old(visited) :: Lookup(levels, s) == old(Lookup(levels, s))
      ensures forall s | old(Lookup(levels, s)).Some? :: Lookup(levels, s).Some?
      ensures Recorded(graph, old(levels), rank) && Below(rank, spec, old(inProgress), true) ==>
        Recorded(graph, levels, rank) && level == Depth(graph, rank, spec)
      decreases nodes - inProgress, 0
    {
      ghost var ranked := Recorded(graph, levels, rank) && Below(rank, spec, inProgress, true);
      if spec in visited {
        level := Lookup(levels, spec).value;
        return;
      }
      if spec in inProgress {
        assert !ranked;
        SetLevel(spec, 0, rank);
        return 0;
      }
      inProgress := inProgress + {spec};
      assert ranked ==> Below(rank, spec, inProgress, false);
      var deps := DepsOf(graph, spec);
      if |deps| == 0 {
        level := 0;
      } else {
        var maxDepLevel := MaxDependencyLevel(spec, deps, rank);
        level := maxDepLevel + 1;
      }
      assert ranked ==> Recorded(graph, levels, rank) && level == Depth(graph, rank, spec);
      SetLevel(spec, level, rank);
      visited := visited + {spec};
      inProgress := inProgress - {spec};
    }

    /**
     * `Math.max(0, ...deps.map(d => calculateLevel(d.spec)))` for the spec in progress, the
     * dependencies walked left to right.
     */
    method MaxDependencyLevel(spec: string, deps: seq<ResolvedDep>, ghost rank: string -> nat)
      returns (maxDepLevel: nat)
      requires Valid() && spec in inProgress && deps == DepsOf(graph, spec)
      modifies this
      ensures Valid() && inProgress == old(inProgress) && old(visited) <= visited
      ensures forall s | s in old(visited) :: Lookup(levels, s) == old(Lookup(levels, s))
      ensures forall s | old(Lookup(levels, s)).Some? :: Lookup(levels, s).Some?
      ensures Recorded(graph, old(levels), rank) && Below(rank, spec, old(inProgress), false) ==>
        Recorded(graph, levels, rank) && maxDepLevel == MaxDepth(graph, rank, deps, rank(spec))
      decreases nodes - inProgress, 1
    {
      DepsClosed(graph, nodes, spec);
      ghost var ranked := Recorded(graph, old(levels), rank) && Below(rank, spec, old(inProgress), false);
      if ranked {
        DepsRank(graph, rank, spec);
      }
      maxDepLevel := 0;
      var i := 0;
      while i < |deps|
        invariant 0 <= i <= |deps|
        invariant Valid() && inProgress == old(inProgress) && old(visited) <= visited
        invariant forall s | s in old(visited) :: Lookup(levels, s) == old(Lookup(levels, s))
        invariant forall s | old(Lookup(levels, s)).Some? :: Lookup(levels, s).Some?
        invariant ranked ==> Recorded(graph, levels, rank) && maxDepLevel == MaxDepth(graph, rank, deps[..i], rank(spec))
        decreases |deps| - i
      {
        var depLevel := CalculateLevel(deps[i].spec, rank);
        assert deps[..i + 1][..i] == deps[..i];
        maxDepLevel := Max(maxDepLevel, depLevel);
        i := i + 1;
      }
      assert deps[..|deps|] == deps;
    }

    /** The driver: every spec file that has no level yet gets one. */
    method CalculateAll(specFiles: seq<string>, ghost rank: string -> nat)
      requires Valid() && inProgress == {} && forall i | 0 <= i < |specFiles| :: specFiles[i] in nodes
      modifies this
      ensures Valid() && inProgress == {}
      ensures forall i | 0 <= i < |specFiles| :: Lookup(levels, specFiles[i]).Some?
      ensures Recorded(graph, old(levels), rank) ==> Recorded(graph, levels, rank)
    {
      var i := 0;
      while i < |specFiles|
        invariant 0 <= i <= |specFiles|
        invariant Valid() && inProgress == {}
        invariant forall k | 0 <= k < i :: Lookup(levels, specFiles[k]).Some?
        invariant Recorded(graph, old(levels), rank) ==> Recorded(graph, levels, rank)
      {
        if Lookup(levels, specFiles[i]).None? {
          var _ := CalculateLevel(specFiles[i], rank);
        }
        i := i + 1;
      }
    }
  }

  /** `Math.max(0, ...levels.values())`. */
  function MaxLevel(levels: Entries<nat>): nat
    decreases |levels|
  {
    if levels == [] then 0 else Max(MaxLevel(levels[..|levels| - 1]), levels[|levels| - 1].1)
  }

  /** The highest level bounds every level and is one of them (or 0 when there is none). */
  lemma {:induction false} MaxLevelBounds(levels: Entries<nat>)
    ensures forall i | 0 <= i < |levels| :: levels[i].1 <= MaxLevel(levels)
    ensures MaxLevel(levels) == 0 || exists i | 0 <= i < |levels| :: levels[i].1 == MaxLevel(levels)
    decreases |levels|
  {
    if levels != [] {
      var n := |levels| - 1;
      var front := levels[..n];
      MaxLevelBounds(front);
      assert forall i | 0 <= i < n :: front[i] == levels[i];
      if MaxLevel(front) > levels[n].1 {
        var i :| 0 <= i < n && front[i].1 == MaxLevel(front);
        assert levels[i].1 == MaxLevel(levels);
      }
    }
  }

  /** The specs of `levels` whose level is `l`, in insertion order. */
  function Group(levels: Entries<nat>, l: nat): seq<string>
    decreases |levels|
  {
    if levels == [] then []
    else
      var n := |levels| - 1;
      Group(levels[..n], l) + if levels[n].1 == l then [levels[n].0] else []
  }

  lemma GroupSnoc(levels: Entries<nat>, i: nat, l: nat)
    requires i < |levels|
    ensures Group(levels[..i + 1], l) == Group(levels[..i], l) + if levels[i].1 == l then [levels[i].0] else []
  {
    assert levels[..i + 1][..i] == levels[..i];
  }

  /** The grouping loops: one empty group per level up to the highest, then each spec pushed onto its own. */
  method GroupByLevel(levels: Entries<nat>) returns (groups: seq<seq<string>>)
    ensures |groups| == MaxLevel(levels) + 1
    ensures forall l | 0 <= l < |groups| :: groups[l] == Group(levels, l)
  {
    var maxLevel := MaxLevel(levels);
    MaxLevelBounds(levels);
    groups := [];
    var l := 0;
    while l <= maxLevel
      invariant 0 <= l <= maxLevel + 1 && |groups| == l
      invariant forall k | 0 <= k < l :: groups[k] == []
    {
      groups := groups + [[]];
      l := l + 1;
    }
    var i := 0;
    while i < |levels|
      invariant 0 <= i <= |levels| && |groups| == maxLevel + 1
      invariant forall k | 0 <= k < |groups| :: groups[k] == Group(levels[..i], k)
    {
      var (specPath, level) := levels[i];
      forall k | 0 <= k < |groups| {
        GroupSnoc(levels, i, k);
      }
      groups := groups[level := groups[level] + [specPath]];
      i := i + 1;
    }
    assert levels[..|levels|] == levels;
  }

  /** A spec is in the group of its level, and in no other. */
  lemma {:induction false} GroupMembers(levels: Entries<nat>, l: nat, s: string)
    requires DistinctKeys(levels)
    ensures s in Group(levels, l) <==> Lookup(levels, s) == Some(l)
    decreases |levels|
  {
    if levels != [] {
      var n := |levels| - 1;
      var front := levels[..n];
      assert DistinctKeys(front);
      GroupMembers(front, l, s);
      if levels[n].0 == s {
        assert Lookup(front, s).None?;
        assert Lookup(levels, s) == Some(levels[n].1);
      } else {
        assert Lookup(levels, s) == Lookup(front, s);
      }
    }
  }

  /** The number of specs in the groups below `n`. */
  function GroupsTotal(levels: Entries<nat>, n: nat): nat {
    if n == 0 then 0 else GroupsTotal(levels, n - 1) + |Group(levels, n - 1)|
  }

  lemma {:induction false} GroupsTotalSnoc(levels: Entries<nat>, n: nat)
    requires levels != []
    ensures GroupsTotal(levels, n) ==
      GroupsTotal(levels[..|levels| - 1], n) + if levels[|levels| - 1].1 < n then 1 else 0
  {
    if n > 0 {
      var front := levels[..|levels| - 1];
      GroupsTotalSnoc(levels, n - 1);
      assert GroupsTotal(levels, n) == GroupsTotal(levels, n - 1) + |Group(levels, n - 1)|;
      assert GroupsTotal(front, n) == GroupsTotal(front, n - 1) + |Group(front, n - 1)|;
    }
  }

  /** When every level lies below `k`, the groups below `k` together hold every spec once. */
  lemma {:induction false} GroupsCount(levels: Entries<nat>, k: nat)
    requires forall i | 0 <= i < |levels| :: levels[i].1 < k
    ensures GroupsTotal(levels, k) == |levels|
    decreases |levels|
  {
    if levels != [] {
      var front := levels[..|levels| - 1];
      assert forall i | 0 <= i < |front| :: front[i] == levels[i];
      assert levels[|levels| - 1].1 < k;
      GroupsTotalSnoc(levels, k);
      GroupsCount(front, k);
      assert GroupsTotal(levels, k) == GroupsTotal(front, k) + 1;
    } else {
      GroupsTotalNone(k);
    }
  }

  lemma {:induction false} GroupsTotalNone(n: nat)
    ensures GroupsTotal([], n) == 0
    decreases n
  {
    if n > 0 {
      GroupsTotalNone(n - 1);
    }
  }

  /** The groups up to the highest level hold every spec once: their sizes add up to the number of specs. */
  lemma {:induction false} GroupsPartition(levels: Entries<nat>)
    ensures GroupsTotal(levels, MaxLevel(levels) + 1) == |levels|
  {
    MaxLevelBounds(levels);
    GroupsCount(levels, MaxLevel(levels) + 1);
  }

  /** `specFiles.filter(s => s.startsWith('frontend/routes/'))`. */
  function Pages(specFiles: seq<string>): (r: seq<string>)
    ensures forall s :: s in r <==> s in specFiles && StartsWith(s, "frontend/routes/")
    decreases |specFiles|
  {
    if specFiles == [] then []
    else
      var n := |specFiles| - 1;
      Pages(specFiles[..n]) + if StartsWith(specFiles[n], "frontend/routes/") then [specFiles[n]] else []
  }

  /** The `statistics` block of the graph. */
  datatype Statistics = Statistics(totalSpecs: nat, leafNodesCount: nat, maxDepth: nat, unresolvedDependencies: nat)

  /**
   * The `dependency_graph` block appended to the index: the leaf nodes, the groups of levels
   * 1 to the highest (the text lists only the non-empty ones), the pages and the statistics.
   */
  datatype GraphSummary = GraphSummary(
    leafNodes: seq<string>, levelGroups: seq<seq<string>>, pages: seq<string>, statistics: Statistics)

  function Summary(specFiles: seq<string>, groups: seq<seq<string>>, unresolved: nat): (r: GraphSummary)
    requires |groups| >= 1
    ensures r.statistics.totalSpecs == |specFiles| && r.statistics.maxDepth + 1 == |groups|
    ensures r.statistics.leafNodesCount == |r.leafNodes| && r.leafNodes == groups[0]
    ensures [r.leafNodes] + r.levelGroups == groups
  {
    GraphSummary(groups[0], groups[1..], Pages(specFiles),
      Statistics(|specFiles|, |groups[0]|, |groups| - 1, unresolved))
  }

  /** A spec with a level sits in the group of that level, which is at most the highest. */
  lemma GroupsPlace(levels: Entries<nat>, s: string)
    requires DistinctKeys(levels) && Lookup(levels, s).Some?
    ensures Lookup(levels, s).value <= MaxLevel(levels) && s in Group(levels, Lookup(levels, s).value)
  {
    MaxLevelBounds(levels);
    GroupMembers(levels, Lookup(levels, s).value, s);
  }

  /** When the levels are depths, the group of level `l` holds specs of depth `l` only. */
  lemma GroupsDepth(g: Graph, levels: Entries<nat>, rank: string -> nat, l: nat, s: string)
    requires DistinctKeys(levels) && Recorded(g, levels, rank) && s in Group(levels, l)
    ensures Depth(g, rank, s) == l
  {
    GroupMembers(levels, l, s);
  }

  /** All groups of a summary, the leaf nodes first. */
  function AllGroups(sm: GraphSummary): seq<seq<string>> {
    [sm.leafNodes] + sm.levelGroups
  }

  /** The two stages of resolution over the spec files and the lines of `index.yaml`. */
  function IndexResolution(dir: SpecDir, specFiles: seq<string>, indexLines: seq<string>): Result<Resolution>
    requires Listed(dir, specFiles)
  {
    var table := Table(Listing(dir, specFiles)).sourceToSpec;
    ResolveAll(EntriesOf(dir, table, Parse(indexLines)))
  }

  /** The two resolution stages, run over the spec files and the index. */
  method ResolveIndex(dir: SpecDir, specFiles: seq<string>, indexLines: seq<string>) returns (res: Result<Resolution>)
    requires Listed(dir, specFiles)
    ensures res == IndexResolution(dir, specFiles, indexLines)
  {
    var ix := BuildSourceIndex(dir, specFiles);
    var specDeps := ParseDependencies(indexLines);
    res := ResolveDependencies(dir, ix.sourceToSpec, specDeps);
  }

  /** The groups of a graph's levels hold each spec file in exactly the places the levels say. */
  ghost predicate GroupsOf(graph: Graph, specFiles: seq<string>, rank: string -> nat, gs: seq<seq<string>>) {
    |gs| >= 1
    && (forall i | 0 <= i < |specFiles| :: exists l | 0 <= l < |gs| :: specFiles[i] in gs[l])
    && (forall i | 0 <= i < |specFiles| && DepsOf(graph, specFiles[i]) == [] :: specFiles[i] in gs[0])
    && (Acyclic(graph, rank) ==> forall l, s | 0 <= l < |gs| && s in gs[l] :: Depth(graph, rank, s) == l)
  }

  /** The level walk over every spec file, then the grouping by level. */
  method LevelGroups(graph: Graph, specFiles: seq<string>, ghost rank: string -> nat) returns (groups: seq<seq<string>>)
    ensures GroupsOf(graph, specFiles, rank, groups)
  {
    var calculator := new LevelCalculator(graph, specFiles);
    forall i | 0 <= i < |specFiles| ensures specFiles[i] in calculator.nodes {
      assert specFiles[i] in (set i | 0 <= i < |specFiles| :: specFiles[i]);
    }
    calculator.CalculateAll(specFiles, rank);
    var levels := calculator.levels;
    groups := GroupByLevel(levels);
    forall i | 0 <= i < |specFiles| ensures exists l | 0 <= l < |groups| :: specFiles[i] in groups[l] {
      GroupsPlace(levels, specFiles[i]);
      assert specFiles[i] in groups[Lookup(levels, specFiles[i]).value];
    }
    forall i | 0 <= i < |specFiles| && DepsOf(graph, specFiles[i]) == [] ensures specFiles[i] in groups[0] {
      GroupsPlace(levels, specFiles[i]);
    }
    if Acyclic(graph, rank) {
      forall l, s | 0 <= l < |groups| && s in groups[l] ensures Depth(graph, rank, s) == l {
        GroupsDepth(graph, levels, rank, l, s);
      }
    }
  }

  /**
   * The script end to end: the source table, the dependencies of the index, their resolution,
   * the levels and the summary appended to the index. It fails exactly when resolution reads a
   * spec file that does not exist, at `path.join(SPECS_DIR, spec)` for a `spec:` of the index. Every spec file gets a group, a spec without resolved
   * dependencies is a leaf, and in an acyclic graph the group of a spec is its depth.
   */
  method BuildDependencyGraph(dir: SpecDir, specFiles: seq<string>, indexLines: seq<string>, ghost rank: string -> nat)
    returns (r: Result<GraphSummary>)
    requires Listed(dir, specFiles)
    ensures r.Err? <==> IndexResolution(dir, specFiles, indexLines).Err?
    ensures r.Err? <==> exists i | 0 <= i < |Parse(indexLines)| :: SpecFileOf(Parse(indexLines)[i].0) !in dir
    ensures r.Ok? ==>
      var res := IndexResolution(dir, specFiles, indexLines).value;
      var gs := AllGroups(r.value);
      r.value.statistics == Statistics(|specFiles|, |gs[0]|, |gs| - 1, |res.unresolved|)
      && r.value.pages == Pages(specFiles) && GroupsOf(res.resolved, specFiles, rank, gs)
  {
    var res := ResolveIndex(dir, specFiles, indexLines);
    SpecGraph.ResolveIndex(dir, Table(Listing(dir, specFiles)).sourceToSpec, Parse(indexLines), "");
    if res.Err? {
      return Err(res.error);
    }
    var sm := SummarizeGraph(res.value, specFiles, rank);
    r := Ok(sm);
  }

  /** The level calculation and the summary over a successful resolution. */
  method SummarizeGraph(res: Resolution, specFiles: seq<string>, ghost rank: string -> nat) returns (sm: GraphSummary)
    ensures var gs := AllGroups(sm);
      sm.statistics == Statistics(|specFiles|, |gs[0]|, |gs| - 1, |res.unresolved|)
      && sm.pages == Pages(specFiles) && GroupsOf(res.resolved, specFiles, rank, gs)
  {
    var groups := LevelGroups(res.resolved, specFiles, rank);
    sm := Summary(specFiles, groups, |res.unresolved|);
    assert AllGroups(sm) == groups;
  }
}
