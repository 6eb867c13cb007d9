/**
 What propagation leaves, as a relation between the list of beliefs before and after, and its
 independence of every order that the engine's input has.
 */
module BeliefOrder {
  import opened Wrappers
  import opened Orders
  import opened OrderedMaps
  import opened SupportGraph
  import opened Propagation
  import opened PropagationLaws
  import opened ConceptMaps

  /** What propagation looks at in a belief. */
  datatype Held = Held(beliefId: string, num: Num)

  function HeldId(h: Held): string { h.beliefId }

  /** The numbers of the beliefs that stand for concepts. */
  function StartNums(xs: seq<Held>, ids: OMap<string>): Nums {
    var m := Mapped(xs, HeldId, ids);
    map c | c in m :: m[c].num
  }

  /** What belief `i` holds in a solution `s`: its concept's numbers, if it has a concept. */
  predicate HoldsSolved(h: Held, ids: OMap<string>, s: Nums, after: Num) {
    match ConceptOf(ids, h.beliefId)
    case Some(c) => c in s && after == s[c]
    case None => after == h.num
  }

  /** The list holds a solution of the equations. Of beliefs with one id only the last is meant. */
  ghost predicate ListSolves(xs: seq<Held>, ids: OMap<string>, g: Graph, attenuation: real, after: seq<Num>)
    requires |after| == |xs|
  {
    exists s :: Solves(g, StartNums(xs, ids), s, attenuation)
                && forall i | 0 <= i < |xs| && LastOfId(xs, HeldId, i) :: HoldsSolved(xs[i], ids, s, after[i])
  }

  /**
   The numbers of the beliefs after propagation: with a cycle those of before, otherwise a solution
   of the propagation equations.
   */
  ghost predicate Propagated(xs: seq<Held>, ids: OMap<string>, support: map<string, seq<string>>, attenuation: real, after: seq<Num>) {
    && |after| == |xs|
    && var g := Restrict(ids.keys, support);
       if Acyclic(g) then ListSolves(xs, ids, g, attenuation, after)
       else forall i | 0 <= i < |xs| :: after[i] == xs[i].num
  }

  /** As above, for a list of different objects: a belief that no concept's numbers go to stays as it was. */
  ghost predicate Settled(xs: seq<Held>, ids: OMap<string>, support: map<string, seq<string>>, attenuation: real, after: seq<Num>) {
    && Propagated(xs, ids, support, attenuation, after)
    && forall i | 0 <= i < |xs| && !LastOfId(xs, HeldId, i) :: after[i] == xs[i].num
  }

  // ----- Which order does not matter

  /** `u` supports `v`. */
  predicate Supports(support: map<string, seq<string>>, u: string, v: string) {
    u in support && v in support[u]
  }

  /** The same support pairs, in any order and any number of times. */
  ghost predicate SameSupport(a: map<string, seq<string>>, b: map<string, seq<string>>) {
    forall u, v :: Supports(a, u, v) <==> Supports(b, u, v)
  }

  lemma SameEdges(ids: OMap<string>, jds: OMap<string>, a: map<string, seq<string>>, b: map<string, seq<string>>)
    requires SameDict(ids, jds) && SameSupport(a, b)
    ensures var g, h := Restrict(ids.keys, a), Restrict(jds.keys, b);
            Proper(g) && Proper(h) && (forall u, v :: Edge(g, u, v) <==> Edge(h, u, v)) && (Acyclic(g) <==> Acyclic(h))
  {
    RestrictProper(ids.keys, a);
    RestrictProper(jds.keys, b);
    var g, h := Restrict(ids.keys, a), Restrict(jds.keys, b);
    forall u, v ensures Edge(g, u, v) <==> Edge(h, u, v) {
      assert u in ids.keys <==> u in jds.keys;
      assert v in ids.keys <==> v in jds.keys;
      assert Supports(a, u, v) <==> Supports(b, u, v);
    }
    forall p ensures Path(g, p) <==> Path(h, p) {}
    forall p ensures Cycle(g, p) <==> Cycle(h, p) {}
  }

  /** Graphs with the same edges have the same solution. */
  lemma OneSolution(g: Graph, h: Graph, start: Nums, s: Nums, t: Nums, attenuation: real)
    requires Proper(g) && Acyclic(g) && forall u, v :: Edge(g, u, v) <==> Edge(h, u, v)
    requires forall c | c in start :: c in g.nodes
    requires Solves(g, start, s, attenuation) && Solves(h, start, t, attenuation)
    ensures s == t
  {
    var order := AcyclicHasOrder(g, []);
    forall v ensures Parents(g, v) == Parents(h, v) {}
    assert Solves(g, start, t, attenuation);
    SolutionUnique(g, start, s, t, attenuation, order);
  }

  lemma StartIsKnown(xs: seq<Held>, ids: OMap<string>)
    ensures forall c | c in StartNums(xs, ids) :: c in ids.keys
  {
    forall c | c in StartNums(xs, ids) ensures c in ids.keys {
      MappedExact(xs, HeldId, ids, c);
      var i: nat :| StandsFor(xs, HeldId, ids, c, i);
      ConceptHasId(ids, HeldId(xs[i]));
    }
  }

  lemma SameStart(xs: seq<Held>, ys: seq<Held>, ids: OMap<string>, jds: OMap<string>)
    requires (forall x :: x in xs <==> x in ys) && Unambiguous(xs, HeldId, ids) && SameDict(ids, jds) && (ids == jds || OneConceptEach(ids))
    ensures StartNums(xs, ids) == StartNums(ys, jds)
    ensures forall b :: ConceptOf(ids, b) == ConceptOf(jds, b)
  {
    MappedAnyOrder(xs, ys, HeldId, ids);
    if ids != jds {
      MappedAnyConceptOrder(ys, HeldId, ids, jds);
      forall b ensures ConceptOf(ids, b) == ConceptOf(jds, b) { ConceptAnyOrder(ids, jds, b); }
    }
  }

  /**
   Main theorem on order. The beliefs in any order, the support pairs in any order and number, and
   the concepts in any order if no two share a belief id: with distinct belief ids every belief
   ends with the same numbers.
   */
  lemma AnyOrder(xs: seq<Held>, ys: seq<Held>, ids: OMap<string>, jds: OMap<string>, a: map<string, seq<string>>, b: map<string, seq<string>>,
                 attenuation: real, after: seq<Num>, later: seq<Num>, i: nat, j: nat)
    requires (forall x :: x in xs <==> x in ys) && Distinct(xs, HeldId) && Distinct(ys, HeldId)
    requires SameDict(ids, jds) && (ids == jds || OneConceptEach(ids)) && SameSupport(a, b)
    requires Propagated(xs, ids, a, attenuation, after) && Propagated(ys, jds, b, attenuation, later)
    requires i < |xs| && j < |ys| && xs[i].beliefId == ys[j].beliefId
    ensures after[i] == later[j]
  {
    assert HeldId(xs[i]) == HeldId(ys[j]) && ys[j] in xs && xs[i] == ys[j];
    SameEdges(ids, jds, a, b);
    var g, h := Restrict(ids.keys, a), Restrict(jds.keys, b);
    if Acyclic(g) {
      SameStart(xs, ys, ids, jds);
      StartIsKnown(xs, ids);
      assert LastOfId(xs, HeldId, i) && LastOfId(ys, HeldId, j);
      var s := SolutionAt(xs, ids, g, attenuation, after, i);
      var t := SolutionAt(ys, jds, h, attenuation, later, j);
      OneSolution(g, h, StartNums(xs, ids), s, t, attenuation);
    }
  }

  /** What the last belief of an id holds in the solution. */
  lemma SolutionAt(xs: seq<Held>, ids: OMap<string>, g: Graph, attenuation: real, after: seq<Num>, i: nat) returns (s: Nums)
    requires i < |xs| == |after| && LastOfId(xs, HeldId, i) && ListSolves(xs, ids, g, attenuation, after)
    ensures Solves(g, StartNums(xs, ids), s, attenuation) && HoldsSolved(xs[i], ids, s, after[i])
  {
    s :| Solves(g, StartNums(xs, ids), s, attenuation)
         && forall k | 0 <= k < |xs| && LastOfId(xs, HeldId, k) :: HoldsSolved(xs[k], ids, s, after[k]);
  }

  /** For one list of beliefs, whatever ids they share, the support pairs may come in any order and number. */
  lemma SupportAnyOrder(xs: seq<Held>, ids: OMap<string>, a: map<string, seq<string>>, b: map<string, seq<string>>, attenuation: real,
                        after: seq<Num>, later: seq<Num>)
    requires Consistent(ids) && SameSupport(a, b) && Settled(xs, ids, a, attenuation, after) && Settled(xs, ids, b, attenuation, later)
    ensures after == later
  {
    SameEdges(ids, ids, a, b);
    var g, h := Restrict(ids.keys, a), Restrict(ids.keys, b);
    forall i | 0 <= i < |xs| ensures after[i] == later[i] {
      if Acyclic(g) && LastOfId(xs, HeldId, i) {
        StartIsKnown(xs, ids);
        var s := SolutionAt(xs, ids, g, attenuation, after, i);
        var t := SolutionAt(xs, ids, h, attenuation, later, i);
        OneSolution(g, h, StartNums(xs, ids), s, t, attenuation);
      }
    }
  }

  // ----- Which order does

  /** As the assessment leaves beliefs. */
  ghost predicate JustAssessed(xs: seq<Held>) {
    forall i | 0 <= i < |xs| :: xs[i].num == Num(xs[i].num.local, 0.0, xs[i].num.local)
  }

  lemma SolutionExists(g: Graph, start: Nums, attenuation: real) returns (s: Nums)
    requires Proper(g) && Acyclic(g)
    ensures Solves(g, start, s, attenuation)
  {
    var order := AcyclicHasOrder(g, []);
    PassSolves(g, start, order, attenuation);
    s := Pass(g, start, order, attenuation);
  }

  /**
   Every order of freshly assessed beliefs has the same solution exactly when no two different ones
   share the id of a concept.
   */
  lemma OrderExact(xs: seq<Held>, ids: OMap<string>, support: map<string, seq<string>>, attenuation: real)
    requires Consistent(ids) && Acyclic(Restrict(ids.keys, support)) && JustAssessed(xs)
    ensures var g := Restrict(ids.keys, support);
            (forall ys, s, t | multiset(ys) == multiset(xs) && Solves(g, StartNums(xs, ids), s, attenuation)
                               && Solves(g, StartNums(ys, ids), t, attenuation) :: s == t)
            <==> Unambiguous(xs, HeldId, ids)
  {
    var g := Restrict(ids.keys, support);
    RestrictProper(ids.keys, support);
    if Unambiguous(xs, HeldId, ids) {
      StartIsKnown(xs, ids);
      forall ys, s, t | multiset(ys) == multiset(xs) && Solves(g, StartNums(xs, ids), s, attenuation)
                        && Solves(g, StartNums(ys, ids), t, attenuation) ensures s == t
      {
        SameElements(xs, ys);
        SameStart(xs, ys, ids, ids);
        OneSolution(g, g, StartNums(xs, ids), s, t, attenuation);
      }
    } else {
      var i, j :| 0 <= i < |xs| && 0 <= j < |xs| && HeldId(xs[i]) == HeldId(xs[j]) && ConceptOf(ids, HeldId(xs[i])).Some? && xs[i] != xs[j];
      var s := SolutionExists(g, StartNums(xs, ids), attenuation);
      var t := LastStands(xs, ids, g, attenuation, i);
      var r := LastStands(xs, ids, g, attenuation, j);
      assert s != t || s != r;
    }
  }

  lemma LastStands(xs: seq<Held>, ids: OMap<string>, g: Graph, attenuation: real, i: nat) returns (s: Nums)
    requires Proper(g) && Acyclic(g) && i < |xs| && ConceptOf(ids, HeldId(xs[i])).Some?
    ensures multiset(MovedLast(xs, i)) == multiset(xs) && Solves(g, StartNums(MovedLast(xs, i), ids), s, attenuation)
    ensures var c := ConceptOf(ids, HeldId(xs[i])).value; c in s && s[c].local == xs[i].num.local
  {
    MovedLastPermutes(xs, i);
    MovedLastStands(xs, HeldId, ids, i);
    s := SolutionExists(g, StartNums(MovedLast(xs, i), ids), attenuation);
  }

  /** The only support pair is from `u` to `v`. */
  ghost predicate OnePair(support: map<string, seq<string>>, u: string, v: string) {
    forall x, y :: Supports(support, x, y) <==> x == u && y == v
  }

  lemma EdgeAt(g: Graph, p: seq<string>, i: nat)
    requires Path(g, p) && i + 1 < |p|
    ensures Edge(g, p[i], p[i + 1])
  {
  }

  lemma OneEdgeAcyclic(concepts: seq<string>, support: map<string, seq<string>>, u: string, v: string)
    requires NoDup(concepts) && u in concepts && v in concepts && u != v && OnePair(support, u, v)
    ensures var g := Restrict(concepts, support); Acyclic(g) && forall x, y :: Edge(g, x, y) <==> x == u && y == v
  {
    var g := Restrict(concepts, support);
    RestrictProper(concepts, support);
    forall x, y ensures Edge(g, x, y) <==> x == u && y == v {
      assert Supports(support, x, y) <==> x == u && y == v;
    }
    forall p ensures !Cycle(g, p) {
      if Path(g, p) && |p| >= 2 {
        EdgeAt(g, p, 0);
        if |p| > 2 { EdgeAt(g, p, 1); }
      }
    }
  }

  lemma OneEdgeSolution(g: Graph, start: Nums, s: Nums, attenuation: real, u: string, v: string)
    requires u != v && (forall x, y :: Edge(g, x, y) <==> x == u && y == v) && Solves(g, start, s, attenuation) && v in start
    ensures s[v].final == Supported(start, u, v, attenuation)
  {
    assert Parents(g, v) == iset{u} && Parents(g, u) == iset{};
    if u in start {
      assert Penalties(s, attenuation, Parents(g, u)) == iset{};
      assert Penalty(s[u].final, attenuation) in Penalties(s, attenuation, Parents(g, v));
    } else {
      assert Penalties(s, attenuation, Parents(g, v)) == iset{};
    }
  }

  /** The confidence of `v` when its one supporter is `u`: less what the supporter lacks, attenuated. */
  function Supported(start: Nums, u: string, v: string, attenuation: real): real
    requires v in start
  {
    if u in start then Clamp(start[v].local + Min(start[v].adjustment, Penalty(start[u].final, attenuation))) else start[v].final
  }

  lemma OneSupporter(xs: seq<Held>, ids: OMap<string>, support: map<string, seq<string>>, attenuation: real, after: seq<Num>, k: nat, u: string, v: string)
    requires Consistent(ids) && u in ids.keys && v in ids.keys && u != v && OnePair(support, u, v)
    requires Propagated(xs, ids, support, attenuation, after)
    requires k < |xs| && LastOfId(xs, HeldId, k) && ConceptOf(ids, HeldId(xs[k])) == Some(v)
    ensures v in StartNums(xs, ids) && after[k].final == Supported(StartNums(xs, ids), u, v, attenuation)
  {
    var g, start := Restrict(ids.keys, support), StartNums(xs, ids);
    OneEdgeAcyclic(ids.keys, support, u, v);
    MappedExact(xs, HeldId, ids, v);
    assert Acyclic(g);
    var s: Nums :| Solves(g, start, s, attenuation) && forall i | 0 <= i < |xs| && LastOfId(xs, HeldId, i) :: HoldsSolved(xs[i], ids, s, after[i]);
    OneEdgeSolution(g, start, s, attenuation, u, v);
    assert HoldsSolved(xs[k], ids, s, after[k]);
  }

  /** Two beliefs with the id of concept "a" and one with that of "c": the later of the two stands for "a". */
  lemma LaterStands(p: real, q: real)
    ensures var xs, ids := [Held("A", Num(p, 0.0, p)), Held("A", Num(q, 0.0, q)), Held("C", Num(1.0, 0.0, 1.0))], OMap(["a", "c"], map["a" := "A", "c" := "C"]);
            && ConceptOf(ids, "A") == Some("a") && ConceptOf(ids, "C") == Some("c")
            && StartNums(xs, ids) == map["a" := Num(q, 0.0, q), "c" := Num(1.0, 0.0, 1.0)]
  {
    var xs, ids := [Held("A", Num(p, 0.0, p)), Held("A", Num(q, 0.0, q)), Held("C", Num(1.0, 0.0, 1.0))], OMap(["a", "c"], map["a" := "A", "c" := "C"]);
    assert ["a", "c"][1..] == ["c"];
    assert FirstConcept(["c"], ids.at, "C") == Some("c");
    assert xs[..2][..1] == xs[..1] && xs[..1][..0] == [];
    assert Mapped(xs[..1], HeldId, ids) == map["a" := xs[0]];
    assert Mapped(xs[..2], HeldId, ids) == map["a" := xs[1]];
    assert Mapped(xs, HeldId, ids) == map["a" := xs[1], "c" := xs[2]];
  }

  lemma ThirdAfter(p: real, q: real, after: seq<Num>)
    requires var xs, ids := [Held("A", Num(p, 0.0, p)), Held("A", Num(q, 0.0, q)), Held("C", Num(1.0, 0.0, 1.0))], OMap(["a", "c"], map["a" := "A", "c" := "C"]);
             Propagated(xs, ids, map["a" := ["c"]], 0.8, after)
    ensures |after| == 3 && after[2].final == Clamp(1.0 + Min(0.0, Penalty(q, 0.8)))
  {
    var xs, ids := [Held("A", Num(p, 0.0, p)), Held("A", Num(q, 0.0, q)), Held("C", Num(1.0, 0.0, 1.0))], OMap(["a", "c"], map["a" := "A", "c" := "C"]);
    LaterStands(p, q);
    assert OnePair(map["a" := ["c"]], "a", "c");
    assert LastOfId(xs, HeldId, 2);
    OneSupporter(xs, ids, map["a" := ["c"]], 0.8, after, 2, "a", "c");
  }

  /** A list in which two beliefs share an id: when they change places, the confidence of a third goes from 0.6 to 1.0. */
  lemma ListOrderMatters(after: seq<Num>, later: seq<Num>)
    requires var a, b, c := Held("A", Num(1.0, 0.0, 1.0)), Held("A", Num(0.5, 0.0, 0.5)), Held("C", Num(1.0, 0.0, 1.0));
             var ids := OMap(["a", "c"], map["a" := "A", "c" := "C"]);
             && Propagated([a, b, c], ids, map["a" := ["c"]], 0.8, after)
             && Propagated([b, a, c], ids, map["a" := ["c"]], 0.8, later)
    ensures |after| == |later| == 3 && after[2].final == 0.6 && later[2].final == 1.0
  {
    ThirdAfter(1.0, 0.5, after);
    ThirdAfter(0.5, 1.0, later);
  }
}
