/** What the propagation equations imply: one solution, bounds, monotonicity, attenuation by distance. */
module PropagationLaws {
  import opened SupportGraph
  import opened Propagation

  // ----- One solution

  lemma FitsUnique(start: Num, a: Num, b: Num, penalties: iset<real>)
    requires Fits(start, a, penalties) && Fits(start, b, penalties)
    ensures a == b
  {
  }

  lemma SamePenalties(a: Nums, b: Nums, attenuation: real, sources: iset<string>)
    requires a.Keys == b.Keys && forall u | u in sources && u in a :: a[u] == b[u]
    ensures Penalties(a, attenuation, sources) == Penalties(b, attenuation, sources)
  {
  }

  lemma EdgeClimbs(g: Graph, order: seq<string>, u: string, v: string)
    requires TopologicalOrder(g, order) && v in order && Edge(g, u, v)
    ensures u in order && Position(order, u) < Position(order, v)
  {
    var i := Position(order, v);
    assert Edge(g, u, order[i]) && u in order[..i];
    var j :| 0 <= j < i && order[..i][j] == u;
    assert order[j] == order[Position(order, u)];
  }

  /** On an acyclic graph the equations have one solution. */
  lemma {:induction false} SolutionUniqueAt(g: Graph, start: Nums, a: Nums, b: Nums, attenuation: real, order: seq<string>, v: string)
    requires TopologicalOrder(g, order) && v in order && v in start
    requires Solves(g, start, a, attenuation) && Solves(g, start, b, attenuation)
    ensures a[v] == b[v]
    decreases Position(order, v)
  {
    forall u | u in Parents(g, v) && u in a ensures a[u] == b[u] {
      EdgeClimbs(g, order, u, v);
      SolutionUniqueAt(g, start, a, b, attenuation, order, u);
    }
    SamePenalties(a, b, attenuation, Parents(g, v));
    FitsUnique(start[v], a[v], b[v], Penalties(a, attenuation, Parents(g, v)));
  }

  lemma SolutionUnique(g: Graph, start: Nums, a: Nums, b: Nums, attenuation: real, order: seq<string>)
    requires TopologicalOrder(g, order) && forall v | v in start :: v in g.nodes
    requires Solves(g, start, a, attenuation) && Solves(g, start, b, attenuation)
    ensures a == b
  {
    forall v | v in a ensures a[v] == b[v] {
      SolutionUniqueAt(g, start, a, b, attenuation, order, v);
    }
  }

  /** So the pass does not depend on the order of nodes and edges, on repeated edges, or on the topological order taken. */
  lemma PassOrderIrrelevant(g: Graph, h: Graph, start: Nums, gOrder: seq<string>, hOrder: seq<string>, attenuation: real)
    requires Proper(g) && Proper(h) && TopologicalOrder(g, gOrder) && TopologicalOrder(h, hOrder)
    requires forall u, v :: Edge(g, u, v) <==> Edge(h, u, v)
    requires forall v | v in start :: v in g.nodes && v in h.nodes
    ensures Pass(g, start, gOrder, attenuation) == Pass(h, start, hOrder, attenuation)
  {
    PassSolves(g, start, gOrder, attenuation);
    PassSolves(h, start, hOrder, attenuation);
    var b := Pass(h, start, hOrder, attenuation);
    forall v ensures Parents(g, v) == Parents(h, v) {}
    assert Solves(g, start, b, attenuation);
    SolutionUnique(g, start, Pass(g, start, gOrder, attenuation), b, attenuation, gOrder);
  }

  // ----- Bounds and monotonicity

  /** As the assessment leaves beliefs: nothing propagated, and the confidence is the local one. */
  ghost predicate Assessed(start: Nums) {
    forall v | v in start :: 0.0 <= start[v].local <= 1.0 && start[v].adjustment == 0.0 && start[v].final == start[v].local
  }

  /** Confidences stay between 0 and the local confidence. */
  lemma Bounded(g: Graph, start: Nums, s: Nums, attenuation: real)
    requires Solves(g, start, s, attenuation) && Assessed(start)
    ensures forall v | v in s :: s[v].adjustment <= 0.0 && 0.0 <= s[v].final <= s[v].local <= 1.0
  {
  }

  ghost predicate Below(a: Nums, b: Nums) {
    a.Keys == b.Keys && forall v | v in a :: BelowAt(a, b, v)
  }

  lemma PenaltyMonotone(a: real, b: real, attenuation: real)
    requires a <= b && attenuation >= 0.0
    ensures Penalty(a, attenuation) <= Penalty(b, attenuation)
  {
  }

  lemma FitsMonotone(low: Num, high: Num, a: Num, b: Num, lows: iset<real>, highs: iset<real>)
    requires Fits(low, a, lows) && Fits(high, b, highs)
    requires low.local <= high.local && low.adjustment <= high.adjustment && low.final <= high.final
    requires (lows == iset{} <==> highs == iset{}) && forall p | p in highs :: exists q :: q in lows && q <= p
    ensures a.local <= b.local && a.adjustment <= b.adjustment && a.final <= b.final
  {
  }

  ghost predicate BelowAt(a: Nums, b: Nums, v: string)
    requires v in a && v in b
  {
    a[v].local <= b[v].local && a[v].adjustment <= b[v].adjustment && a[v].final <= b[v].final
  }

  lemma PenaltiesMonotone(a: Nums, b: Nums, attenuation: real, sources: iset<string>)
    requires attenuation >= 0.0 && a.Keys == b.Keys && forall u | u in sources && u in a :: BelowAt(a, b, u)
    ensures var lows, highs := Penalties(a, attenuation, sources), Penalties(b, attenuation, sources);
            (lows == iset{} <==> highs == iset{}) && forall p | p in highs :: exists q :: q in lows && q <= p
  {
    var lows, highs := Penalties(a, attenuation, sources), Penalties(b, attenuation, sources);
    forall p | p in highs ensures exists q :: q in lows && q <= p {
      var u :| u in sources && u in b && p == Penalty(b[u].final, attenuation);
      PenaltyMonotone(a[u].final, b[u].final, attenuation);
      assert Penalty(a[u].final, attenuation) in lows;
    }
    if p :| p in lows {
      var u :| u in sources && u in a && p == Penalty(a[u].final, attenuation);
      assert Penalty(b[u].final, attenuation) in highs;
    }
  }

  lemma {:induction false} MonotoneAt(g: Graph, low: Nums, high: Nums, a: Nums, b: Nums, attenuation: real, order: seq<string>, v: string)
    requires TopologicalOrder(g, order) && v in order && v in a && attenuation >= 0.0
    requires Below(low, high) && Solves(g, low, a, attenuation) && Solves(g, high, b, attenuation)
    ensures BelowAt(a, b, v)
    decreases Position(order, v)
  {
    forall u | u in Parents(g, v) && u in a ensures BelowAt(a, b, u) {
      EdgeClimbs(g, order, u, v);
      MonotoneAt(g, low, high, a, b, attenuation, order, u);
    }
    PenaltiesMonotone(a, b, attenuation, Parents(g, v));
    FitsMonotone(low[v], high[v], a[v], b[v], Penalties(a, attenuation, Parents(g, v)), Penalties(b, attenuation, Parents(g, v)));
  }

  /** Raising any local confidences lowers no confidence anywhere. */
  lemma PropagationMonotone(g: Graph, low: Nums, high: Nums, a: Nums, b: Nums, attenuation: real, order: seq<string>)
    requires TopologicalOrder(g, order) && attenuation >= 0.0 && forall v | v in low :: v in g.nodes
    requires Below(low, high) && Solves(g, low, a, attenuation) && Solves(g, high, b, attenuation)
    ensures Below(a, b)
  {
    forall v | v in a ensures BelowAt(a, b, v) {
      MonotoneAt(g, low, high, a, b, attenuation, order, v);
    }
  }

  // ----- One belief falls short

  function Power(x: real, k: nat): real {
    if k == 0 then 1.0 else x * Power(x, k - 1)
  }

  /** What is left of a shortfall `d` after `k` attenuations. */
  function Shortfall(d: real, x: real, k: nat): real {
    d * Power(x, k)
  }

  lemma Product(x: real, y: real)
    requires 0.0 <= x <= 1.0 && 0.0 <= y
    ensures 0.0 <= x * y <= y
  {
    assert (1.0 - x) * y >= 0.0;
  }

  lemma {:induction false} PowerBounds(x: real, k: nat)
    requires 0.0 <= x <= 1.0
    ensures 0.0 <= Power(x, k) <= 1.0
  {
    if k > 0 {
      PowerBounds(x, k - 1);
      Product(x, Power(x, k - 1));
    }
  }

  lemma {:induction false} PowerFalls(x: real, j: nat, k: nat)
    requires 0.0 <= x <= 1.0 && j <= k
    ensures Power(x, k) <= Power(x, j)
  {
    if j < k {
      PowerFalls(x, j, k - 1);
      PowerBounds(x, k - 1);
      Product(x, Power(x, k - 1));
    }
  }

  /** A support path of `k` edges from `src` to `v`, through concepts that have beliefs. */
  ghost predicate Reaches(g: Graph, s: Nums, src: string, v: string, k: nat)
    decreases k
  {
    v in s && if k == 0 then v == src else exists u :: Edge(g, u, v) && Reaches(g, s, src, u, k - 1)
  }

  /** The shortest support path from `src` to `v` has `k` edges. */
  ghost predicate Distance(g: Graph, s: Nums, src: string, v: string, k: nat) {
    Reaches(g, s, src, v, k) && forall j: nat | j < k :: !Reaches(g, s, src, v, j)
  }

  lemma {:induction false} ShortestExists(g: Graph, s: Nums, src: string, v: string, k: nat) returns (d: nat)
    requires Reaches(g, s, src, v, k)
    ensures d <= k && Distance(g, s, src, v, d)
    decreases k
  {
    if j: nat :| j < k && Reaches(g, s, src, v, j) {
      d := ShortestExists(g, s, src, v, j);
    } else {
      d := k;
    }
  }

  ghost predicate Climbs(g: Graph, order: seq<string>) {
    forall u, v | Edge(g, u, v) && v in order :: u in order && Position(order, u) < Position(order, v)
  }

  lemma {:induction false} ReachClimbs(g: Graph, s: Nums, order: seq<string>, src: string, v: string, k: nat)
    requires Climbs(g, order) && src in order && v in order && Reaches(g, s, src, v, k)
    ensures Position(order, src) <= Position(order, v)
    decreases k
  {
    if k > 0 {
      var u :| Edge(g, u, v) && Reaches(g, s, src, u, k - 1);
      ReachClimbs(g, s, order, src, u, k - 1);
    }
  }

  /** Only `src` falls short of full confidence, by `d`. */
  ghost predicate OneShort(start: Nums, src: string, d: real) {
    && Assessed(start) && src in start && 0.0 <= d <= 1.0
    && forall v | v in start :: start[v].local == if v == src then 1.0 - d else 1.0
  }

  /** What the lemma below says of one belief. */
  ghost predicate ShortByDistance(g: Graph, s: Nums, src: string, d: real, attenuation: real, v: string)
    requires v in s
  {
    && (forall k: nat | Distance(g, s, src, v, k) :: s[v].final == 1.0 - Shortfall(d, attenuation, k))
    && ((forall k: nat :: !Reaches(g, s, src, v, k)) ==> s[v].final == 1.0)
  }

  lemma UnreachedParents(g: Graph, s: Nums, src: string, d: real, attenuation: real, v: string)
    requires forall u | u in Parents(g, v) && u in s :: s[u].final == 1.0
    ensures forall p | p in Penalties(s, attenuation, Parents(g, v)) :: p == 0.0
  {
  }

  lemma ReachFromParent(g: Graph, s: Nums, src: string, u: string, v: string, k: nat)
    requires Edge(g, u, v) && v in s && Reaches(g, s, src, u, k)
    ensures Reaches(g, s, src, v, k + 1)
  {
  }

  /** The source itself: nothing that precedes it is short. */
  lemma SourceShort(g: Graph, start: Nums, s: Nums, order: seq<string>, src: string, d: real, attenuation: real)
    requires TopologicalOrder(g, order) && src in order && OneShort(start, src, d) && Solves(g, start, s, attenuation)
    requires forall u | u in Parents(g, src) && u in s :: ShortByDistance(g, s, src, d, attenuation, u)
    ensures ShortByDistance(g, s, src, d, attenuation, src)
  {
    forall u | u in Parents(g, src) && u in s ensures s[u].final == 1.0 {
      forall k: nat ensures !Reaches(g, s, src, u, k) {
        if Reaches(g, s, src, u, k) {
          EdgeClimbs(g, order, u, src);
          forall x, y | Edge(g, x, y) && y in order { EdgeClimbs(g, order, x, y); }
          ReachClimbs(g, s, order, src, u, k);
          assert false;
        }
      }
    }
    UnreachedParents(g, s, src, d, attenuation, src);
    assert Reaches(g, s, src, src, 0);
    assert s[src].final == 1.0 - d;
    assert Shortfall(d, attenuation, 0) == d;
  }

  /** A belief that no path reaches. */
  lemma UnreachedFull(g: Graph, start: Nums, s: Nums, src: string, d: real, attenuation: real, v: string)
    requires OneShort(start, src, d) && Solves(g, start, s, attenuation) && v in s && v != src
    requires forall k: nat :: !Reaches(g, s, src, v, k)
    requires forall u | u in Parents(g, v) && u in s :: ShortByDistance(g, s, src, d, attenuation, u)
    ensures s[v].final == 1.0
  {
    forall u | u in Parents(g, v) && u in s ensures s[u].final == 1.0 {
      forall k: nat ensures !Reaches(g, s, src, u, k) {
        if Reaches(g, s, src, u, k) {
          ReachFromParent(g, s, src, u, v, k);
          assert false;
        }
      }
    }
    UnreachedParents(g, s, src, d, attenuation, v);
  }

  lemma Scale(d: real, x: real, y: real)
    requires 0.0 <= d && x <= y
    ensures d * x <= d * y
  {
    assert d * (y - x) >= 0.0;
  }

  lemma ShortfallFalls(d: real, x: real, j: nat, k: nat)
    requires 0.0 <= d && 0.0 <= x <= 1.0 && j <= k
    ensures 0.0 <= Shortfall(d, x, k) <= Shortfall(d, x, j)
  {
    PowerFalls(x, j, k);
    PowerBounds(x, k);
    Scale(d, Power(x, k), Power(x, j));
    Scale(d, 0.0, Power(x, k));
  }

  lemma ScaleShortfall(d: real, x: real, j: nat, final: real)
    requires final == 1.0 - Shortfall(d, x, j)
    ensures Penalty(final, x) == -Shortfall(d, x, j + 1)
  {
    assert Power(x, j + 1) == x * Power(x, j);
  }

  /** The penalty from a belief at distance `j` is at least that of a shorter path. */
  lemma ReachedPenalty(d: real, x: real, j: nat, k: nat, final: real)
    requires 0.0 <= d && 0.0 <= x <= 1.0 && k <= j + 1 && final == 1.0 - Shortfall(d, x, j)
    ensures Penalty(final, x) >= -Shortfall(d, x, k) && (k == j + 1 ==> Penalty(final, x) == -Shortfall(d, x, k))
  {
    ScaleShortfall(d, x, j, final);
    ShortfallFalls(d, x, k, j + 1);
  }

  lemma FullPenalty(d: real, x: real, k: nat)
    requires 0.0 <= d && 0.0 <= x <= 1.0
    ensures Penalty(1.0, x) >= -Shortfall(d, x, k)
  {
    ShortfallFalls(d, x, k, k);
  }

  /** The penalty from a parent is least along the shortest path. */
  lemma ParentPenalty(g: Graph, s: Nums, src: string, d: real, attenuation: real, u: string, v: string, k: nat)
    requires 0.0 <= d <= 1.0 && 0.0 <= attenuation <= 1.0
    requires v in s && u in s && Edge(g, u, v) && k > 0 && Distance(g, s, src, v, k)
    requires ShortByDistance(g, s, src, d, attenuation, u)
    ensures Penalty(s[u].final, attenuation) >= -Shortfall(d, attenuation, k)
    ensures Reaches(g, s, src, u, k - 1) ==> Penalty(s[u].final, attenuation) == -Shortfall(d, attenuation, k)
  {
    if m: nat :| Reaches(g, s, src, u, m) {
      var j := ShortestExists(g, s, src, u, m);
      ReachFromParent(g, s, src, u, v, j);
      ReachedPenalty(d, attenuation, j, k, s[u].final);
      assert Reaches(g, s, src, u, k - 1) ==> j == k - 1;
    } else {
      FullPenalty(d, attenuation, k);
    }
  }

  lemma FitsLeast(start: Num, n: Num, penalties: iset<real>, least: real)
    requires Fits(start, n, penalties) && start.adjustment == 0.0 && start.local == 1.0
    requires -1.0 <= least <= 0.0 && least in penalties && forall p | p in penalties :: p >= least
    ensures n.final == 1.0 + least
  {
  }

  lemma PenaltyAbove(g: Graph, s: Nums, src: string, d: real, attenuation: real, v: string, k: nat, p: real)
    requires 0.0 <= d <= 1.0 && 0.0 <= attenuation <= 1.0 && v in s && k > 0 && Distance(g, s, src, v, k)
    requires forall u | u in Parents(g, v) && u in s :: ShortByDistance(g, s, src, d, attenuation, u)
    requires p in Penalties(s, attenuation, Parents(g, v))
    ensures p >= -Shortfall(d, attenuation, k)
  {
    var u :| u in Parents(g, v) && u in s && p == Penalty(s[u].final, attenuation);
    ParentPenalty(g, s, src, d, attenuation, u, v, k);
  }

  lemma PenaltyReached(g: Graph, s: Nums, src: string, d: real, attenuation: real, v: string, k: nat)
    requires 0.0 <= d <= 1.0 && 0.0 <= attenuation <= 1.0 && v in s && k > 0 && Distance(g, s, src, v, k)
    requires forall u | u in Parents(g, v) && u in s :: ShortByDistance(g, s, src, d, attenuation, u)
    ensures -Shortfall(d, attenuation, k) in Penalties(s, attenuation, Parents(g, v))
  {
    var w :| Edge(g, w, v) && Reaches(g, s, src, w, k - 1);
    assert w in Parents(g, v) && w in s;
    ParentPenalty(g, s, src, d, attenuation, w, v, k);
  }

  /** The least penalty that a belief at distance `k` receives. */
  lemma LeastPenalty(g: Graph, s: Nums, src: string, d: real, attenuation: real, v: string, k: nat)
    requires 0.0 <= d <= 1.0 && 0.0 <= attenuation <= 1.0 && v in s && k > 0 && Distance(g, s, src, v, k)
    requires forall u | u in Parents(g, v) && u in s :: ShortByDistance(g, s, src, d, attenuation, u)
    ensures var penalties, least := Penalties(s, attenuation, Parents(g, v)), -Shortfall(d, attenuation, k);
            least in penalties && forall p | p in penalties :: p >= least
  {
    PenaltyReached(g, s, src, d, attenuation, v, k);
    forall p | p in Penalties(s, attenuation, Parents(g, v)) ensures p >= -Shortfall(d, attenuation, k) {
      PenaltyAbove(g, s, src, d, attenuation, v, k, p);
    }
  }

  /** A belief whose least penalty is that of distance `k`. */
  lemma ReachedShort(start: Num, n: Num, penalties: iset<real>, d: real, attenuation: real, k: nat)
    requires 0.0 <= d <= 1.0 && 0.0 <= attenuation <= 1.0
    requires start.local == 1.0 && start.adjustment == 0.0 && Fits(start, n, penalties)
    requires -Shortfall(d, attenuation, k) in penalties && forall p | p in penalties :: p >= -Shortfall(d, attenuation, k)
    ensures n.final == 1.0 - Shortfall(d, attenuation, k)
  {
    ShortfallFalls(d, attenuation, 0, k);
    assert Shortfall(d, attenuation, 0) == d;
    FitsLeast(start, n, penalties, -Shortfall(d, attenuation, k));
  }

  /**
   If exactly one belief falls short of full confidence, by `d`, every belief falls short by
   d * attenuation^k, with k the edges of its shortest support path from it, and by nothing when
   there is no such path.
   */
  lemma {:induction false} ShortfallByDistance(g: Graph, start: Nums, s: Nums, order: seq<string>, src: string, d: real, attenuation: real, v: string)
    requires TopologicalOrder(g, order) && forall u | u in start :: u in g.nodes
    requires OneShort(start, src, d) && Solves(g, start, s, attenuation) && 0.0 <= attenuation <= 1.0
    requires v in s
    ensures ShortByDistance(g, s, src, d, attenuation, v)
    decreases Position(order, v)
  {
    forall u | u in Parents(g, v) && u in s ensures ShortByDistance(g, s, src, d, attenuation, u) {
      EdgeClimbs(g, order, u, v);
      ShortfallByDistance(g, start, s, order, src, d, attenuation, u);
    }
    if v == src {
      SourceShort(g, start, s, order, src, d, attenuation);
    } else {
      forall k: nat | Distance(g, s, src, v, k) ensures s[v].final == 1.0 - Shortfall(d, attenuation, k) {
        LeastPenalty(g, s, src, d, attenuation, v, k);
        ReachedShort(start[v], s[v], Penalties(s, attenuation, Parents(g, v)), d, attenuation, k);
      }
      if forall k: nat :: !Reaches(g, s, src, v, k) {
        UnreachedFull(g, start, s, src, d, attenuation, v);
      }
    }
  }
}
