/** Support graphs, and Kahn's algorithm with a sorted queue: cycle check and topological order. */
module SupportGraph {
  import opened Orders
  import opened OrderedMaps

  /** Concepts, and the targets each one supports; an edge may be repeated. */
  datatype Graph = Graph(nodes: seq<string>, adj: map<string, seq<string>>)

  ghost predicate Proper(g: Graph) {
    && NoDup(g.nodes)
    && (forall u :: u in g.nodes <==> u in g.adj)
    && (forall u, v | u in g.adj && v in g.adj[u] :: v in g.nodes)
  }

  predicate Edge(g: Graph, u: string, v: string) {
    u in g.adj && v in g.adj[u]
  }

  // ----- Paths and cycles

  ghost predicate Path(g: Graph, p: seq<string>) {
    p != [] && forall i | 0 <= i < |p| - 1 :: Edge(g, p[i], p[i + 1])
  }

  ghost predicate Cycle(g: Graph, p: seq<string>) {
    Path(g, p) && |p| >= 2 && p[0] == p[|p| - 1]
  }

  ghost predicate Acyclic(g: Graph) {
    forall p :: !Cycle(g, p)
  }

  /** Every node once, after all its sources. */
  ghost predicate TopologicalOrder(g: Graph, t: seq<string>) {
    && NoDup(t)
    && (forall u :: u in t <==> u in g.nodes)
    && SourcesFirst(g, t)
  }

  ghost predicate SourcesFirst(g: Graph, t: seq<string>) {
    forall i, u | 0 <= i < |t| && Edge(g, u, t[i]) :: u in t[..i]
  }

  // ----- Degrees, counting repeated edges

  function Count(xs: seq<string>, v: string): nat {
    multiset(xs)[v]
  }

  /** Edges into `v` from the nodes not yet done. */
  function Degree(nodes: seq<string>, adj: map<string, seq<string>>, done: set<string>, v: string): nat {
    if nodes == [] then 0
    else
      var n := |nodes| - 1;
      Degree(nodes[..n], adj, done, v) +
      if nodes[n] in done || nodes[n] !in adj then 0 else Count(adj[nodes[n]], v)
  }

  lemma {:induction false} DegreeZero(nodes: seq<string>, adj: map<string, seq<string>>, done: set<string>, v: string)
    ensures Degree(nodes, adj, done, v) == 0 <==> forall u | u in nodes && u in adj && u !in done :: v !in adj[u]
  {
    if nodes != [] {
      var n := |nodes| - 1;
      DegreeZero(nodes[..n], adj, done, v);
      assert nodes == nodes[..n] + [nodes[n]];
    }
  }

  lemma {:induction false} DegreeFinish(nodes: seq<string>, adj: map<string, seq<string>>, done: set<string>, u: string, v: string)
    requires NoDup(nodes) && u !in done && u in adj
    ensures Degree(nodes, adj, done + {u}, v) + (if u in nodes then Count(adj[u], v) else 0) == Degree(nodes, adj, done, v)
  {
    if nodes != [] {
      var n := |nodes| - 1;
      DegreeFinish(nodes[..n], adj, done, u, v);
      assert nodes == nodes[..n] + [nodes[n]];
      assert nodes[n] !in nodes[..n];
    }
  }

  lemma {:induction false} DegreeAddEdge(nodes: seq<string>, adj: map<string, seq<string>>, u: string, t: string, v: string)
    requires NoDup(nodes) && u in adj
    ensures Degree(nodes, adj[u := adj[u] + [t]], {}, v) ==
            Degree(nodes, adj, {}, v) + if u in nodes && v == t then 1 else 0
  {
    if nodes != [] {
      var n := |nodes| - 1;
      DegreeAddEdge(nodes[..n], adj, u, t, v);
      assert nodes == nodes[..n] + [nodes[n]];
      assert nodes[n] !in nodes[..n];
    }
  }

  lemma {:induction false} DegreeEmpty(nodes: seq<string>, adj: map<string, seq<string>>, v: string)
    requires forall u | u in adj :: adj[u] == []
    ensures Degree(nodes, adj, {}, v) == 0
  {
    DegreeZero(nodes, adj, {}, v);
  }

  // ----- Building the graph

  /** Targets that are concepts. */
  function OnlyKnown(concepts: seq<string>, targets: seq<string>): seq<string> {
    if targets == [] then []
    else
      var n := |targets| - 1;
      OnlyKnown(concepts, targets[..n]) + if targets[n] in concepts then [targets[n]] else []
  }

  /** The support graph without what is not a concept. */
  function Restrict(concepts: seq<string>, support: map<string, seq<string>>): Graph {
    Graph(concepts, map c | c in concepts :: if c in support then OnlyKnown(concepts, support[c]) else [])
  }

  lemma {:induction false} KnownElements(concepts: seq<string>, targets: seq<string>)
    ensures forall v :: v in OnlyKnown(concepts, targets) <==> v in targets && v in concepts
  {
    if targets != [] {
      var n := |targets| - 1;
      KnownElements(concepts, targets[..n]);
      assert targets == targets[..n] + [targets[n]];
    }
  }

  lemma RestrictProper(concepts: seq<string>, support: map<string, seq<string>>)
    requires NoDup(concepts)
    ensures Proper(Restrict(concepts, support))
    ensures forall u, v :: Edge(Restrict(concepts, support), u, v) <==>
              u in concepts && v in concepts && u in support && v in support[u]
  {
    forall u | u in support { KnownElements(concepts, support[u]); }
  }

  ghost predicate Degrees(g: Graph, done: set<string>, inDegree: map<string, int>) {
    && (forall v :: v in inDegree <==> v in g.nodes)
    && (forall v | v in g.nodes :: inDegree[v] == Degree(g.nodes, g.adj, done, v))
  }

  /** The restricted graph with the edges out of some sources only. */
  function FromSources(concepts: seq<string>, sources: seq<string>, support: map<string, seq<string>>): Graph {
    Graph(concepts, map c | c in concepts :: if c in sources && c in support then OnlyKnown(concepts, support[c]) else [])
  }

  lemma FromOneMore(concepts: seq<string>, sources: seq<string>, support: map<string, seq<string>>, src: string)
    requires src in support
    ensures var before := FromSources(concepts, sources, support);
            FromSources(concepts, sources + [src], support) ==
            if src in concepts then before.(adj := before.adj[src := OnlyKnown(concepts, support[src])]) else before
  {
    var adj, after := FromSources(concepts, sources, support).adj, FromSources(concepts, sources + [src], support).adj;
    assert forall c :: c in sources + [src] <==> c in sources || c == src;
    if src in concepts {
      assert after == adj[src := OnlyKnown(concepts, support[src])];
    } else {
      assert after == adj;
    }
  }

  lemma FromNotYet(concepts: seq<string>, sources: seq<string>, support: map<string, seq<string>>, src: string)
    requires src in concepts && src !in sources
    ensures var adj := FromSources(concepts, sources, support).adj; src in adj && adj[src] == []
  {
  }

  lemma FromNoneAndAll(concepts: seq<string>, support: OMap<seq<string>>)
    requires Consistent(support)
    ensures FromSources(concepts, [], support.at) == Graph(concepts, map c | c in concepts :: [])
    ensures FromSources(concepts, support.keys, support.at) == Restrict(concepts, support.at)
  {
    assert FromSources(concepts, [], support.at).adj == map c | c in concepts :: [];
    assert FromSources(concepts, support.keys, support.at).adj == Restrict(concepts, support.at).adj;
  }

  lemma NoEdgesDegrees(concepts: seq<string>)
    ensures Degrees(Graph(concepts, map c | c in concepts :: []), {}, map c | c in concepts :: 0)
  {
    var g := Graph(concepts, map c | c in concepts :: []);
    forall v { DegreeEmpty(g.nodes, g.adj, v); }
  }

  lemma AddEdgeDegrees(g: Graph, inDegree: map<string, int>, src: string, tgt: string)
    requires Degrees(g, {}, inDegree) && NoDup(g.nodes) && src in g.adj && src in g.nodes && tgt in g.nodes
    ensures Degrees(Graph(g.nodes, g.adj[src := g.adj[src] + [tgt]]), {}, inDegree[tgt := inDegree[tgt] + 1])
  {
    forall v { DegreeAddEdge(g.nodes, g.adj, src, tgt, v); }
  }

  /** The loop over the targets of one source. */
  method AddTargets(g0: Graph, inDegree0: map<string, int>, src: string, targets: seq<string>)
    returns (g: Graph, inDegree: map<string, int>)
    requires Degrees(g0, {}, inDegree0) && NoDup(g0.nodes)
    requires src in g0.nodes && src in g0.adj && g0.adj[src] == []
    ensures g == Graph(g0.nodes, g0.adj[src := OnlyKnown(g0.nodes, targets)])
    ensures Degrees(g, {}, inDegree)
  {
    g, inDegree := g0, inDegree0;
    assert g0.adj[src := []] == g0.adj;
    for j := 0 to |targets|
      invariant g == Graph(g0.nodes, g0.adj[src := OnlyKnown(g0.nodes, targets[..j])])
      invariant Degrees(g, {}, inDegree)
    {
      assert targets[..j + 1][..j] == targets[..j];
      var tgt := targets[j];
      ghost var known := OnlyKnown(g0.nodes, targets[..j]);
      assert OnlyKnown(g0.nodes, targets[..j + 1]) == if tgt in g0.nodes then known + [tgt] else known;
      assert g0.adj[src := known][src := known + [tgt]] == g0.adj[src := known + [tgt]];
      if tgt in g0.nodes {
        AddEdgeDegrees(g, inDegree, src, tgt);
        g := Graph(g.nodes, g.adj[src := g.adj[src] + [tgt]]);
        inDegree := inDegree[tgt := inDegree[tgt] + 1];
      }
    }
    assert targets[..|targets|] == targets;
  }

  /** The adjacency lists and in-degrees, filled edge by edge. */
  method BuildGraph(concepts: seq<string>, support: OMap<seq<string>>) returns (g: Graph, inDegree: map<string, int>)
    requires NoDup(concepts) && Consistent(support)
    ensures g == Restrict(concepts, support.at)
    ensures Degrees(g, {}, inDegree)
  {
    g := Graph(concepts, map c | c in concepts :: []);
    inDegree := map c | c in concepts :: 0;
    FromNoneAndAll(concepts, support);
    NoEdgesDegrees(concepts);
    for i := 0 to |support.keys|
      invariant g == FromSources(concepts, support.keys[..i], support.at)
      invariant Degrees(g, {}, inDegree)
    {
      var src := support.keys[i];
      PrefixMore(support.keys, i);
      FromOneMore(concepts, support.keys[..i], support.at, src);
      if src in concepts {
        FromNotYet(concepts, support.keys[..i], support.at, src);
        g, inDegree := AddTargets(g, inDegree, src, support.at[src]);
      }
    }
    assert support.keys[..|support.keys|] == support.keys;
  }

  // ----- Kahn's algorithm

  /** The state of the outer loop: what has been emitted, and what is ready. */
  ghost predicate KahnState(g: Graph, queue: seq<string>, topo: seq<string>, inDegree: map<string, int>) {
    && NoDup(topo) && NoDup(queue)
    && (forall v | v in topo :: v in g.nodes)
    && Degrees(g, Elements(topo), inDegree)
    && (forall v :: v in queue <==> v in g.nodes && v !in topo && inDegree[v] == 0)
    && SourcesFirst(g, topo)
  }

  /** Emitting a node whose sources are all emitted keeps the order. */
  lemma EmitKeepsOrder(g: Graph, topo: seq<string>, v: string)
    requires Proper(g) && NoDup(topo) && SourcesFirst(g, topo) && v in g.nodes && v !in topo
    requires Degree(g.nodes, g.adj, Elements(topo), v) == 0
    ensures NoDup(topo + [v]) && SourcesFirst(g, topo + [v])
  {
    DegreeZero(g.nodes, g.adj, Elements(topo), v);
    forall i, u | 0 <= i < |topo + [v]| && Edge(g, u, (topo + [v])[i]) ensures u in (topo + [v])[..i] {
      if i < |topo| {
        assert (topo + [v])[..i] == topo[..i];
      } else {
        assert (topo + [v])[..i] == topo;
        assert u in g.nodes;
      }
    }
  }

  /** The first node of the queue can be emitted, and is not the last node left to count. */
  lemma EmitFirst(g: Graph, topo: seq<string>, curr: string, queue: seq<string>, inDegree: map<string, int>)
    requires Proper(g) && KahnState(g, [curr] + queue, topo, inDegree)
    ensures NoDup(topo + [curr]) && SourcesFirst(g, topo + [curr]) && forall v | v in topo + [curr] :: v in g.nodes
    ensures |topo| < |g.nodes|
  {
    assert curr in [curr] + queue;
    assert curr in g.nodes && forall v | v in topo :: v in g.nodes;
    EmitKeepsOrder(g, topo, curr);
    DistinctSize(topo + [curr], g.nodes);
  }

  /** The state of the inner loop, with the edges to the targets in `rest` still counted. */
  ghost predicate Releasing(g: Graph, topo: seq<string>, rest: seq<string>, queue: seq<string>, inDegree: map<string, int>) {
    && NoDup(queue)
    && (forall v :: v in inDegree <==> v in g.nodes)
    && (forall v | v in g.nodes :: inDegree[v] == Degree(g.nodes, g.adj, Elements(topo), v) + Count(rest, v))
    && (forall v :: v in queue <==> v in g.nodes && v !in topo && inDegree[v] == 0)
  }

  lemma ReleaseStarts(g: Graph, topo: seq<string>, curr: string, queue: seq<string>, inDegree: map<string, int>)
    requires Proper(g) && KahnState(g, [curr] + queue, topo, inDegree)
    ensures Releasing(g, topo + [curr], g.adj[curr], queue, inDegree)
    ensures forall v | v in g.adj[curr] :: v in g.nodes && v !in topo + [curr]
  {
    assert curr in [curr] + queue;
    assert Elements(topo + [curr]) == Elements(topo) + {curr};
    forall v { DegreeFinish(g.nodes, g.adj, Elements(topo), curr, v); }
    DegreeZero(g.nodes, g.adj, Elements(topo), curr);
    forall v | v in g.adj[curr] ensures v !in topo + [curr] {
      if v in topo {
        var i :| 0 <= i < |topo| && topo[i] == v;
        assert Edge(g, curr, topo[i]);
      }
    }
    assert NoDup([curr] + queue);
    forall i, j | 0 <= i < j < |queue| ensures queue[i] != queue[j] {
      assert queue[i] == ([curr] + queue)[i + 1] && queue[j] == ([curr] + queue)[j + 1];
    }
    assert ([curr] + queue)[0] == curr;
    forall j | 0 <= j < |queue| ensures queue[j] != curr {
      assert ([curr] + queue)[j + 1] == queue[j];
    }
    assert forall v :: v in queue <==> v in [curr] + queue && v != curr;
  }

  lemma ReleaseOne(g: Graph, topo: seq<string>, v: string, rest: seq<string>, queue: seq<string>, inDegree: map<string, int>)
    requires Releasing(g, topo, [v] + rest, queue, inDegree) && v in g.nodes && v !in topo
    ensures var left := inDegree[v := inDegree[v] - 1];
            Releasing(g, topo, rest, if left[v] == 0 then queue + [v] else queue, left)
  {
    forall w ensures Count([v] + rest, w) == Count(rest, w) + if w == v then 1 else 0 {}
    assert inDegree[v] > 0;
  }

  /** The inner loop: each edge out of `curr` lowers the degree of its target. */
  method ReleaseTargets(g: Graph, curr: string, ghost topo: seq<string>, queue0: seq<string>, inDegree0: map<string, int>)
    returns (queue: seq<string>, inDegree: map<string, int>)
    requires Proper(g) && KahnState(g, [curr] + queue0, topo, inDegree0) && curr in g.adj
    ensures Releasing(g, topo + [curr], [], queue, inDegree)
  {
    ReleaseStarts(g, topo, curr, queue0, inDegree0);
    queue, inDegree := queue0, inDegree0;
    var targets := g.adj[curr];
    assert targets[0..] == targets;
    for j := 0 to |targets|
      invariant Releasing(g, topo + [curr], targets[j..], queue, inDegree)
    {
      var neighbor := targets[j];
      assert targets[j..] == [neighbor] + targets[j + 1..];
      assert neighbor in targets;
      ReleaseOne(g, topo + [curr], neighbor, targets[j + 1..], queue, inDegree);
      inDegree := inDegree[neighbor := inDegree[neighbor] - 1];
      if inDegree[neighbor] == 0 {
        queue := queue + [neighbor];
      }
    }
  }

  lemma SubsetSize(a: set<string>, b: set<string>)
    requires a <= b
    ensures |a| <= |b| && (|a| == |b| ==> a == b)
  {
    assert b == a + (b - a);
    assert |b| == |a| + |b - a|;
  }

  lemma DistinctSize(xs: seq<string>, ys: seq<string>)
    requires NoDup(xs) && NoDup(ys) && forall x | x in xs :: x in ys
    ensures |xs| <= |ys| && (|xs| == |ys| ==> forall y | y in ys :: y in xs)
  {
    NoDupSize(xs);
    NoDupSize(ys);
    assert Elements(xs) <= Elements(ys);
    SubsetSize(Elements(xs), Elements(ys));
    if |xs| == |ys| {
      forall y | y in ys ensures y in xs { assert y in Elements(ys); }
    }
  }

  // ----- Complete exactly when acyclic

  function Position(t: seq<string>, x: string): (i: nat)
    requires x in t
    ensures i < |t| && t[i] == x
  {
    if t[0] == x then 0 else 1 + Position(t[1..], x)
  }

  lemma {:induction false} PathClimbs(g: Graph, t: seq<string>, p: seq<string>)
    requires TopologicalOrder(g, t) && Proper(g) && Path(g, p) && |p| >= 2
    ensures p[0] in t && p[|p| - 1] in t && Position(t, p[0]) < Position(t, p[|p| - 1])
  {
    var n := |p| - 1;
    assert Edge(g, p[n - 1], p[n]);
    var i := Position(t, p[n]);
    assert p[n - 1] in t[..i];
    var j :| 0 <= j < i && t[..i][j] == p[n - 1];
    assert t[j] == t[Position(t, p[n - 1])];
    if n > 1 {
      PathClimbs(g, t, p[..n]);
    }
  }

  /** A graph with a topological order has no cycle. */
  lemma OrderedIsAcyclic(g: Graph, t: seq<string>)
    requires TopologicalOrder(g, t) && Proper(g)
    ensures Acyclic(g)
  {
    forall p ensures !Cycle(g, p) {
      if Path(g, p) && |p| >= 2 { PathClimbs(g, t, p); }
    }
  }

  /** Every stuck node has a stuck source. */
  ghost predicate Stuck(g: Graph, topo: seq<string>) {
    forall v | v in g.nodes && v !in topo :: Degree(g.nodes, g.adj, Elements(topo), v) > 0
  }

  ghost function StuckSource(g: Graph, topo: seq<string>, v: string): (u: string)
    requires Proper(g) && Stuck(g, topo) && v in g.nodes && v !in topo
    ensures u in g.nodes && u !in topo && Edge(g, u, v)
  {
    DegreeZero(g.nodes, g.adj, Elements(topo), v);
    var u :| u in g.nodes && u !in topo && Edge(g, u, v);
    u
  }

  /** Walk back from a stuck node along stuck sources. */
  ghost function WalkBack(g: Graph, topo: seq<string>, v: string, n: nat): (p: seq<string>)
    requires Proper(g) && Stuck(g, topo) && v in g.nodes && v !in topo
    ensures |p| == n + 1 && Path(g, p) && forall x | x in p :: x in g.nodes
    decreases n
  {
    if n == 0 then [v]
    else
      var u := StuckSource(g, topo, v);
      WalkBack(g, topo, u, n - 1) + [v]
  }

  /** So a stuck graph has a cycle: a walk longer than the graph repeats a node. */
  lemma StuckIsCyclic(g: Graph, topo: seq<string>, v: string)
    requires Proper(g) && Stuck(g, topo) && v in g.nodes && v !in topo
    ensures !Acyclic(g)
  {
    var p := WalkBack(g, topo, v, |g.nodes|);
    if NoDup(p) { DistinctSize(p, g.nodes); }
    var i, j :| 0 <= i < j < |p| && p[i] == p[j];
    var c := p[i..j + 1];
    forall k | 0 <= k < |c| - 1 ensures Edge(g, c[k], c[k + 1]) {
      assert Edge(g, p[i + k], p[i + k + 1]);
    }
    assert Cycle(g, c);
  }

  /** An acyclic graph has a topological order: nodes whose sources are placed can be placed until none is left. */
  lemma {:induction false} AcyclicHasOrder(g: Graph, topo: seq<string>) returns (t: seq<string>)
    requires Proper(g) && Acyclic(g)
    requires NoDup(topo) && SourcesFirst(g, topo) && forall v | v in topo :: v in g.nodes
    ensures TopologicalOrder(g, t)
    decreases |g.nodes| - |topo|
  {
    if v :| v in g.nodes && v !in topo {
      if Stuck(g, topo) { StuckIsCyclic(g, topo, v); }
      var w :| w in g.nodes && w !in topo && Degree(g.nodes, g.adj, Elements(topo), w) == 0;
      DegreeZero(g.nodes, g.adj, Elements(topo), w);
      forall i, u | 0 <= i < |topo| + 1 && Edge(g, u, (topo + [w])[i]) ensures u in (topo + [w])[..i] {
        assert (topo + [w])[..i] == topo[..i];
      }
      DistinctSize(topo + [w], g.nodes);
      t := AcyclicHasOrder(g, topo + [w]);
    } else {
      t := topo;
    }
  }

  lemma SortQueue(g: Graph, queue: seq<string>, topo: seq<string>, inDegree: map<string, int>)
    requires KahnState(g, queue, topo, inDegree)
    ensures KahnState(g, StableSort(queue, StrLe), topo, inDegree) && |StableSort(queue, StrLe)| == |queue|
  {
    SortKeepsElements(queue, StrLe);
  }

  lemma KahnNext(g: Graph, topo: seq<string>, queue: seq<string>, inDegree: map<string, int>)
    requires Releasing(g, topo, [], queue, inDegree)
    requires NoDup(topo) && SourcesFirst(g, topo) && forall v | v in topo :: v in g.nodes
    ensures KahnState(g, queue, topo, inDegree)
  {
  }

  /** Kahn's loop: emits no node twice, each after its sources, and all of them exactly without cycles. */
  method KahnSort(g: Graph, inDegree0: map<string, int>) returns (topo: seq<string>)
    requires Proper(g) && Degrees(g, {}, inDegree0)
    ensures NoDup(topo) && SourcesFirst(g, topo) && forall v | v in topo :: v in g.nodes
    ensures |topo| == |g.nodes| <==> Acyclic(g)
    ensures Acyclic(g) ==> TopologicalOrder(g, topo)
  {
    var inDegree := inDegree0;
    var queue := ReadyNodes(g.nodes, inDegree);
    topo := [];
    assert Elements(topo) == {};
    while queue != []
      invariant KahnState(g, queue, topo, inDegree)
      decreases |g.nodes| - |topo|
    {
      SortQueue(g, queue, topo, inDegree);
      queue := StableSort(queue, StrLe);
      var curr := queue[0];
      assert queue == [curr] + queue[1..];
      EmitFirst(g, topo, curr, queue[1..], inDegree);
      var rest;
      rest, inDegree := ReleaseTargets(g, curr, topo, queue[1..], inDegree);
      KahnNext(g, topo + [curr], rest, inDegree);
      topo, queue := topo + [curr], rest;
    }
    KahnComplete(g, topo, inDegree);
  }

  lemma KahnComplete(g: Graph, topo: seq<string>, inDegree: map<string, int>)
    requires Proper(g) && KahnState(g, [], topo, inDegree)
    ensures |topo| == |g.nodes| <==> Acyclic(g)
    ensures Acyclic(g) ==> TopologicalOrder(g, topo)
  {
    assert Stuck(g, topo);
    DistinctSize(topo, g.nodes);
    if v :| v in g.nodes && v !in topo {
      StuckIsCyclic(g, topo, v);
    } else {
      DistinctSize(g.nodes, topo);
      OrderedIsAcyclic(g, topo);
    }
  }

  /** The nodes without remaining edges into them, in order. */
  function ReadyNodes(nodes: seq<string>, inDegree: map<string, int>): (r: seq<string>)
    ensures forall v :: v in r <==> v in nodes && v in inDegree && inDegree[v] == 0
    ensures NoDup(nodes) ==> NoDup(r)
  {
    if nodes == [] then []
    else
      var n := |nodes| - 1;
      assert nodes == nodes[..n] + [nodes[n]];
      ReadyNodes(nodes[..n], inDegree) + if nodes[n] in inDegree && inDegree[nodes[n]] == 0 then [nodes[n]] else []
  }
}
