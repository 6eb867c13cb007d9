/**
 Confidence propagation along a topological order: the pass as a function, the equations it
 solves, and what follows from the equations alone.
 */
module Propagation {
  import opened SupportGraph

  /** The numbers of one belief. */
  datatype Num = Num(local: real, adjustment: real, final: real)

  /** One entry for each concept that has a belief. */
  type Nums = map<string, Num>

  function Min(a: real, b: real): real { if b < a then b else a }
  function Max(a: real, b: real): real { if b > a then b else a }
  function Clamp(x: real): real { Max(0.0, Min(1.0, x)) }

  function Penalty(final: real, attenuation: real): real { (final - 1.0) * attenuation }

  // ----- The pass

  function Lower(n: Num, penalty: real): Num {
    var adjustment := Min(n.adjustment, penalty);
    Num(n.local, adjustment, Clamp(n.local + adjustment))
  }

  function LowerChildren(s: Nums, penalty: real, children: seq<string>): Nums {
    if children == [] then s
    else
      var n := |children| - 1;
      var before := LowerChildren(s, penalty, children[..n]);
      var c := children[n];
      if c in before then before[c := Lower(before[c], penalty)] else before
  }

  function Visit(g: Graph, s: Nums, parent: string, attenuation: real): Nums {
    if parent in s && parent in g.adj then LowerChildren(s, Penalty(s[parent].final, attenuation), g.adj[parent]) else s
  }

  function Pass(g: Graph, s: Nums, order: seq<string>, attenuation: real): Nums {
    if order == [] then s
    else
      var n := |order| - 1;
      Visit(g, Pass(g, s, order[..n], attenuation), order[n], attenuation)
  }

  // ----- The equations

  /**
   A belief given the penalties it receives: its adjustment is the least of them and of its
   initial value; with any penalty at all its confidence is recomputed from the adjustment.
   */
  ghost predicate Fits(start: Num, n: Num, penalties: iset<real>) {
    && n.local == start.local
    && n.adjustment <= start.adjustment
    && (forall p | p in penalties :: n.adjustment <= p)
    && (n.adjustment == start.adjustment || n.adjustment in penalties)
    && n.final == if penalties == iset{} then start.final else Clamp(n.local + n.adjustment)
  }

  ghost function Penalties(s: Nums, attenuation: real, sources: iset<string>): iset<real> {
    iset u | u in sources && u in s :: Penalty(s[u].final, attenuation)
  }

  ghost function Parents(g: Graph, v: string): iset<string> {
    iset u | Edge(g, u, v)
  }

  /** Every belief fits the penalties of the final confidences of its parents. */
  ghost predicate Solves(g: Graph, start: Nums, s: Nums, attenuation: real) {
    && s.Keys == start.Keys
    && forall v | v in s :: Fits(start[v], s[v], Penalties(s, attenuation, Parents(g, v)))
  }

  lemma LowerFits(start: Num, n: Num, penalties: iset<real>, p: real)
    requires Fits(start, n, penalties)
    ensures Fits(start, Lower(n, p), penalties + iset{p})
  {
    assert p in penalties + iset{p};
  }

  // ----- The pass solves the equations

  /** The parents of `v` seen when `visited` are done and `parent` has reached `children`. */
  ghost function SeenParents(g: Graph, visited: seq<string>, parent: string, children: seq<string>, v: string): iset<string> {
    iset u | (u in visited && Edge(g, u, v)) || (u == parent && v in children)
  }

  ghost predicate SolvesSoFar(g: Graph, start: Nums, s: Nums, attenuation: real, visited: seq<string>, parent: string, children: seq<string>) {
    && s.Keys == start.Keys
    && forall v | v in s :: Fits(start[v], s[v], Penalties(s, attenuation, SeenParents(g, visited, parent, children, v)))
  }

  /** Reaching one more child, which has not been visited itself. */
  lemma LowerOne(g: Graph, start: Nums, s: Nums, attenuation: real, visited: seq<string>, parent: string, children: seq<string>, c: string)
    requires SolvesSoFar(g, start, s, attenuation, visited, parent, children)
    requires parent in s && c !in visited && c != parent
    ensures var after := if c in s then s[c := Lower(s[c], Penalty(s[parent].final, attenuation))] else s;
            SolvesSoFar(g, start, after, attenuation, visited, parent, children + [c])
  {
    var after := if c in s then s[c := Lower(s[c], Penalty(s[parent].final, attenuation))] else s;
    forall v | v in after
      ensures Fits(start[v], after[v], Penalties(after, attenuation, SeenParents(g, visited, parent, children + [c], v)))
    {
      if v == c {
        SeenReached(g, visited, parent, children, c);
        LowerReached(start[v], s, after, attenuation, SeenParents(g, visited, parent, children, v), parent, c);
      } else {
        SeenElsewhere(g, visited, parent, children, c, v);
        PenaltiesSame(s, after, attenuation, SeenParents(g, visited, parent, children, v), c);
      }
    }
  }

  lemma LowerReached(start: Num, s: Nums, after: Nums, attenuation: real, sources: iset<string>, parent: string, c: string)
    requires c in s && parent in s && c != parent && c !in sources && Fits(start, s[c], Penalties(s, attenuation, sources))
    requires after == s[c := Lower(s[c], Penalty(s[parent].final, attenuation))]
    ensures Fits(start, after[c], Penalties(after, attenuation, sources + iset{parent}))
  {
    PenaltiesOfMore(s, after, attenuation, sources, parent, c);
    LowerFits(start, s[c], Penalties(s, attenuation, sources), Penalty(s[parent].final, attenuation));
  }

  lemma SeenReached(g: Graph, visited: seq<string>, parent: string, children: seq<string>, c: string)
    ensures SeenParents(g, visited, parent, children + [c], c) == SeenParents(g, visited, parent, children, c) + iset{parent}
  {
  }

  lemma SeenElsewhere(g: Graph, visited: seq<string>, parent: string, children: seq<string>, c: string, v: string)
    requires v != c
    ensures SeenParents(g, visited, parent, children + [c], v) == SeenParents(g, visited, parent, children, v)
  {
  }

  lemma PenaltiesSame(s: Nums, after: Nums, attenuation: real, sources: iset<string>, c: string)
    requires s.Keys == after.Keys && c !in sources && forall u | u in s && u != c :: after[u] == s[u]
    ensures Penalties(after, attenuation, sources) == Penalties(s, attenuation, sources)
  {
    var a, b := Penalties(after, attenuation, sources), Penalties(s, attenuation, sources);
    forall x | x in a ensures x in b {
      var u :| u in sources && u in after && x == Penalty(after[u].final, attenuation);
      assert u in s && after[u] == s[u];
    }
    forall x | x in b ensures x in a {
      var u :| u in sources && u in s && x == Penalty(s[u].final, attenuation);
      assert u in after && after[u] == s[u];
    }
  }

  lemma PenaltiesOfMore(s: Nums, after: Nums, attenuation: real, sources: iset<string>, parent: string, c: string)
    requires s.Keys == after.Keys && c !in sources && c != parent && parent in s
    requires forall u | u in s && u != c :: after[u] == s[u]
    ensures Penalties(after, attenuation, sources + iset{parent}) ==
            Penalties(s, attenuation, sources) + iset{Penalty(s[parent].final, attenuation)}
  {
    PenaltiesSame(s, after, attenuation, sources, c);
    var all := Penalties(after, attenuation, sources + iset{parent});
    assert after[parent] == s[parent];
    assert Penalty(after[parent].final, attenuation) in all;
  }

  /** No child has been visited, nor is the parent its own. */
  ghost predicate Unvisited(children: seq<string>, visited: seq<string>, parent: string) {
    forall c | c in children :: c !in visited && c != parent
  }

  lemma UnvisitedPrefix(children: seq<string>, visited: seq<string>, parent: string)
    requires children != [] && Unvisited(children, visited, parent)
    ensures var n := |children| - 1; Unvisited(children[..n], visited, parent) && children[n] !in visited && children[n] != parent
    ensures children == children[..|children| - 1] + [children[|children| - 1]]
  {
    assert forall c | c in children[..|children| - 1] :: c in children;
  }

  lemma {:induction false} LowerChildrenSolves(g: Graph, start: Nums, s: Nums, attenuation: real, visited: seq<string>, parent: string, children: seq<string>)
    requires SolvesSoFar(g, start, s, attenuation, visited, parent, [])
    requires parent in s && Unvisited(children, visited, parent)
    ensures var after := LowerChildren(s, Penalty(s[parent].final, attenuation), children);
            && SolvesSoFar(g, start, after, attenuation, visited, parent, children)
            && parent in after && after[parent] == s[parent]
  {
    if children != [] {
      var n := |children| - 1;
      UnvisitedPrefix(children, visited, parent);
      LowerChildrenSolves(g, start, s, attenuation, visited, parent, children[..n]);
      var before := LowerChildren(s, Penalty(s[parent].final, attenuation), children[..n]);
      LowerLast(g, start, s, before, attenuation, visited, parent, children[..n], children[n]);
    }
  }

  lemma LowerLast(g: Graph, start: Nums, s: Nums, before: Nums, attenuation: real, visited: seq<string>, parent: string, children: seq<string>, c: string)
    requires SolvesSoFar(g, start, before, attenuation, visited, parent, children)
    requires parent in s && parent in before && before[parent] == s[parent] && c !in visited && c != parent
    ensures var after := if c in before then before[c := Lower(before[c], Penalty(s[parent].final, attenuation))] else before;
            SolvesSoFar(g, start, after, attenuation, visited, parent, children + [c]) && parent in after && after[parent] == s[parent]
  {
    LowerOne(g, start, before, attenuation, visited, parent, children, c);
  }

  lemma SeenNothing(g: Graph, start: Nums, s: Nums, attenuation: real, visited: seq<string>, parent: string, other: string)
    requires SolvesSoFar(g, start, s, attenuation, visited, parent, [])
    ensures SolvesSoFar(g, start, s, attenuation, visited, other, [])
  {
    forall v ensures SeenParents(g, visited, other, [], v) == SeenParents(g, visited, parent, [], v) {}
  }

  lemma VisitedOneMore(g: Graph, start: Nums, s: Nums, attenuation: real, visited: seq<string>, parent: string)
    requires Proper(g) && parent in g.nodes
    requires SolvesSoFar(g, start, s, attenuation, visited, parent, g.adj[parent])
    ensures SolvesSoFar(g, start, s, attenuation, visited + [parent], parent, [])
  {
    forall v | v in s
      ensures Fits(start[v], s[v], Penalties(s, attenuation, SeenParents(g, visited + [parent], parent, [], v)))
    {
      SeenVisited(g, visited, parent, v);
    }
  }

  lemma SeenVisited(g: Graph, visited: seq<string>, parent: string, v: string)
    requires parent in g.adj
    ensures SeenParents(g, visited + [parent], parent, [], v) == SeenParents(g, visited, parent, g.adj[parent], v)
  {
    assert forall u :: u in visited + [parent] <==> u in visited || u == parent;
  }

  lemma VisitedUnmapped(g: Graph, start: Nums, s: Nums, attenuation: real, visited: seq<string>, parent: string)
    requires SolvesSoFar(g, start, s, attenuation, visited, parent, []) && parent !in s
    ensures SolvesSoFar(g, start, s, attenuation, visited + [parent], parent, [])
  {
    forall v ensures Penalties(s, attenuation, SeenParents(g, visited + [parent], parent, [], v)) ==
                     Penalties(s, attenuation, SeenParents(g, visited, parent, [], v)) {}
  }

  lemma ChildrenLater(g: Graph, order: seq<string>, i: nat)
    requires Proper(g) && TopologicalOrder(g, order) && i < |order| && order[i] in g.adj
    ensures Unvisited(g.adj[order[i]], order[..i], order[i])
  {
    forall c | c in g.adj[order[i]] ensures c !in order[..i] && c != order[i] {
      var k := Position(order, c);
      assert Edge(g, order[i], order[k]);
      var l :| 0 <= l < k && order[..k][l] == order[i];
    }
  }

  /** Along a topological order a node is finished before any of its children is visited. */
  lemma {:induction false} PassSolvesSoFar(g: Graph, start: Nums, order: seq<string>, attenuation: real, i: nat)
    requires Proper(g) && TopologicalOrder(g, order) && i <= |order|
    ensures SolvesSoFar(g, start, Pass(g, start, order[..i], attenuation), attenuation, order[..i], "", [])
  {
    if i == 0 {
      forall v ensures Penalties(start, attenuation, SeenParents(g, [], "", [], v)) == iset{} {}
    } else {
      var visited, parent := order[..i - 1], order[i - 1];
      assert order[..i] == visited + [parent] && order[..i][..i - 1] == visited;
      PassSolvesSoFar(g, start, order, attenuation, i - 1);
      var before := Pass(g, start, visited, attenuation);
      SeenNothing(g, start, before, attenuation, visited, "", parent);
      assert parent in g.nodes;
      if parent in before {
        ChildrenLater(g, order, i - 1);
        LowerChildrenSolves(g, start, before, attenuation, visited, parent, g.adj[parent]);
        VisitedOneMore(g, start, Pass(g, start, order[..i], attenuation), attenuation, visited, parent);
      } else {
        VisitedUnmapped(g, start, before, attenuation, visited, parent);
      }
      SeenNothing(g, start, Pass(g, start, order[..i], attenuation), attenuation, order[..i], parent, "");
    }
  }

  lemma PassSolves(g: Graph, start: Nums, order: seq<string>, attenuation: real)
    requires Proper(g) && TopologicalOrder(g, order)
    ensures Solves(g, start, Pass(g, start, order, attenuation), attenuation)
  {
    PassSolvesSoFar(g, start, order, attenuation, |order|);
    assert order[..|order|] == order;
    forall v ensures SeenParents(g, order, "", [], v) == Parents(g, v) {}
  }
}
