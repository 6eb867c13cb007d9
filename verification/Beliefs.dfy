/** Evidence assessment, belief objects, and confidence propagation over them in place. */
module Beliefs {
  import opened Wrappers
  import opened Orders
  import opened OrderedMaps
  import opened SupportGraph
  import opened Propagation
  import opened ConceptMaps
  import opened BeliefOrder

  // ----- Assessment

  datatype ReasoningConfig = ReasoningConfig(
    attenuation: real, agreementWeight: real, corroborationWeight: real,
    contradictionPenaltyWeight: real, stalenessPenaltyWeight: real)

  const DefaultReasoning := ReasoningConfig(0.8, 0.1, 0.05, 0.3, 0.01)

  datatype Bundle = Bundle(
    conceptId: string, title: string, content: string,
    supportingEvidence: seq<string>, contradictingEvidence: seq<string>,
    contradictionFindings: nat, freshness: real, sourceDiversity: int, baseConfidence: real)

  datatype Assessment = Assessment(
    baseConfidence: real, agreementScore: real, corroborationScore: real, contradictionPenalty: real,
    stalenessPenalty: real, propagatedAdjustment: real, localConfidence: real, finalConfidence: real)

  function Assess(b: Bundle, config: ReasoningConfig): Assessment {
    var agreement := Min(0.2, Max(0.0, (b.sourceDiversity - 1) as real * config.agreementWeight));
    var corroboration := Min(0.2, Max(0.0, |b.supportingEvidence| as real * config.corroborationWeight));
    var contradictions := |b.contradictingEvidence| + b.contradictionFindings;
    var contradictionPenalty := Min(1.0, Max(0.0, contradictions as real * config.contradictionPenaltyWeight));
    var stalenessPenalty := Min(0.5, Max(0.0, b.freshness * config.stalenessPenaltyWeight));
    var local := Max(0.0, Min(1.0, b.baseConfidence + agreement + corroboration - contradictionPenalty - stalenessPenalty));
    Assessment(b.baseConfidence, agreement, corroboration, contradictionPenalty, stalenessPenalty, 0.0, local, local)
  }

  // ----- Belief objects

  class Belief {
    const beliefId: string
    const title: string
    const content: string
    const localConfidence: real
    const supportingEvidence: seq<string>
    var propagatedAdjustment: real
    var finalConfidence: real
    var assessment: Assessment
    var dependentBeliefIds: seq<string>

    /** `BeliefEngine.construct`, given the id hashed from title and content. */
    constructor (id: string, t: string, c: string, a: Assessment, evidence: seq<string>)
      ensures beliefId == id && title == t && content == c && supportingEvidence == evidence
      ensures localConfidence == a.localConfidence && assessment == a && dependentBeliefIds == []
      ensures propagatedAdjustment == a.propagatedAdjustment && finalConfidence == a.finalConfidence
    {
      beliefId, title, content, supportingEvidence := id, t, c, evidence;
      localConfidence, propagatedAdjustment, finalConfidence := a.localConfidence, a.propagatedAdjustment, a.finalConfidence;
      assessment, dependentBeliefIds := a, [];
    }

    function Numbers(): Num
      reads this
    {
      Num(localConfidence, propagatedAdjustment, finalConfidence)
    }
  }

  // ----- Which belief stands for a concept

  function IdOf(b: Belief): string { b.beliefId }

  /** `belief_map` */
  function BeliefMap(beliefs: seq<Belief>, ids: OMap<string>): map<string, Belief> {
    Mapped(beliefs, IdOf, ids)
  }

  /** No belief stands for two concepts. */
  ghost predicate OneConcept(m: map<string, Belief>) {
    forall c, d | c in m && d in m && m[c] == m[d] :: c == d
  }

  lemma BeliefMapExact(beliefs: seq<Belief>, ids: OMap<string>)
    ensures var m := BeliefMap(beliefs, ids);
            && (forall c | c in m :: m[c] in beliefs && c in ids.keys && ConceptOf(ids, m[c].beliefId) == Some(c))
            && OneConcept(m)
  {
    var m := BeliefMap(beliefs, ids);
    forall c | c in m ensures m[c] in beliefs && c in ids.keys && ConceptOf(ids, m[c].beliefId) == Some(c) {
      MappedExact(beliefs, IdOf, ids, c);
      var i: nat :| StandsFor(beliefs, IdOf, ids, c, i) && m[c] == beliefs[i];
      ConceptHasId(ids, beliefs[i].beliefId);
    }
  }

  /** The ids and numbers of the beliefs. */
  function HeldOf(beliefs: seq<Belief>): (r: seq<Held>)
    reads beliefs
    ensures |r| == |beliefs|
  {
    if beliefs == [] then []
    else
      var n := |beliefs| - 1;
      HeldOf(beliefs[..n]) + [Held(beliefs[n].beliefId, beliefs[n].Numbers())]
  }

  function NumbersOf(beliefs: seq<Belief>): (r: seq<Num>)
    reads beliefs
    ensures |r| == |beliefs| && forall i | 0 <= i < |r| :: r[i] == beliefs[i].Numbers()
  {
    if beliefs == [] then []
    else
      var n := |beliefs| - 1;
      NumbersOf(beliefs[..n]) + [beliefs[n].Numbers()]
  }

  lemma {:induction false} HeldAt(beliefs: seq<Belief>, i: nat)
    requires i < |beliefs|
    ensures HeldOf(beliefs)[i] == Held(beliefs[i].beliefId, beliefs[i].Numbers())
  {
    if i < |beliefs| - 1 { HeldAt(beliefs[..|beliefs| - 1], i); }
  }

  /** The map of the objects and the map of what they hold have the same concepts and numbers. */
  lemma {:induction false} HeldMapped(beliefs: seq<Belief>, ids: OMap<string>)
    ensures var m, h := BeliefMap(beliefs, ids), Mapped(HeldOf(beliefs), HeldId, ids);
            m.Keys == h.Keys && forall c | c in m :: h[c] == Held(m[c].beliefId, m[c].Numbers())
  {
    if beliefs != [] {
      var n := |beliefs| - 1;
      HeldMapped(beliefs[..n], ids);
      assert HeldOf(beliefs)[..n] == HeldOf(beliefs[..n]);
      assert IdOf(beliefs[n]) == HeldId(HeldOf(beliefs)[n]);
    }
  }

  /** The loops that fill `belief_map`. */
  method MapBeliefs(beliefs: seq<Belief>, ids: OMap<string>) returns (m: map<string, Belief>)
    requires Consistent(ids)
    ensures m == BeliefMap(beliefs, ids)
  {
    m := map[];
    for i := 0 to |beliefs|
      invariant m == BeliefMap(beliefs[..i], ids)
    {
      var b := beliefs[i];
      assert beliefs[..i + 1][..i] == beliefs[..i];
      ghost var before := m;
      assert ids.keys[0..] == ids.keys;
      for j := 0 to |ids.keys|
        invariant m == before
        invariant FirstConcept(ids.keys, ids.at, b.beliefId) == FirstConcept(ids.keys[j..], ids.at, b.beliefId)
      {
        var cid := ids.keys[j];
        assert ids.keys[j..][0] == cid && ids.keys[j..][1..] == ids.keys[j + 1..];
        if ids.at[cid] == b.beliefId {
          m := m[cid := b];
          break;
        }
      }
    }
    assert beliefs[..|beliefs|] == beliefs;
  }

  // ----- Propagation in place

  ghost predicate Among(m: map<string, Belief>, objects: set<Belief>) {
    forall c | c in m :: m[c] in objects
  }

  ghost function NumsOf(m: map<string, Belief>, objects: set<Belief>): Nums
    requires Among(m, objects)
    reads objects
  {
    map c | c in m :: m[c].Numbers()
  }

  /** Nothing has changed, or the assessment carries the present numbers and is as before otherwise. */
  ghost predicate Reassessed(b: Belief, was: Assessment, start: Num)
    reads b
  {
    (b.assessment == was && b.Numbers() == start) ||
    b.assessment == was.(propagatedAdjustment := b.propagatedAdjustment, localConfidence := b.localConfidence, finalConfidence := b.finalConfidence)
  }

  /** The body of the innermost loop of the traversal. */
  method LowerBelief(b: Belief, penalty: real)
    modifies b`propagatedAdjustment, b`finalConfidence, b`assessment
    ensures b.Numbers() == Lower(old(b.Numbers()), penalty)
    ensures b.assessment == old(b.assessment).(propagatedAdjustment := b.propagatedAdjustment, localConfidence := b.localConfidence, finalConfidence := b.finalConfidence)
  {
    var adjustment := Min(b.propagatedAdjustment, penalty);
    var final := Max(0.0, Min(1.0, b.localConfidence + adjustment));
    var a := b.assessment;
    b.propagatedAdjustment := adjustment;
    b.finalConfidence := final;
    b.assessment := Assessment(a.baseConfidence, a.agreementScore, a.corroborationScore, a.contradictionPenalty,
                               a.stalenessPenalty, adjustment, b.localConfidence, final);
  }

  /** The body of the loop over the children. */
  method VisitChild(m: map<string, Belief>, child: string, penalty: real, ghost objects: set<Belief>,
                    ghost was: map<string, Assessment>, ghost start: Nums)
    requires Among(m, objects) && OneConcept(m) && was.Keys == start.Keys == m.Keys
    requires forall c | c in m :: Reassessed(m[c], was[c], start[c])
    modifies (set c | c in m && c == child :: m[c])`propagatedAdjustment, (set c | c in m && c == child :: m[c])`finalConfidence,
             (set c | c in m && c == child :: m[c])`assessment
    ensures forall c | c in m :: Reassessed(m[c], was[c], start[c])
    ensures var s := old(NumsOf(m, objects));
            NumsOf(m, objects) == if child in s then s[child := Lower(s[child], penalty)] else s
  {
    if child in m {
      ghost var s := NumsOf(m, objects);
      LowerBelief(m[child], penalty);
      assert NumsOf(m, objects) == s[child := Lower(s[child], penalty)];
    }
  }

  /** The loop over the children of one parent. */
  method VisitParent(g: Graph, m: map<string, Belief>, parent: string, attenuation: real, ghost objects: set<Belief>,
                     ghost was: map<string, Assessment>, ghost start: Nums)
    requires Among(m, objects) && OneConcept(m) && was.Keys == start.Keys == m.Keys && parent in g.adj
    requires forall c | c in m :: Reassessed(m[c], was[c], start[c])
    modifies (set c | c in m :: m[c])`propagatedAdjustment, (set c | c in m :: m[c])`finalConfidence, (set c | c in m :: m[c])`assessment
    ensures NumsOf(m, objects) == Visit(g, old(NumsOf(m, objects)), parent, attenuation)
    ensures forall c | c in m :: Reassessed(m[c], was[c], start[c])
  {
    if parent !in m { return; }
    var penalty := (m[parent].finalConfidence - 1.0) * attenuation;
    ghost var s := NumsOf(m, objects);
    assert penalty == Penalty(s[parent].final, attenuation);
    var children := g.adj[parent];
    for j := 0 to |children|
      invariant NumsOf(m, objects) == LowerChildren(s, penalty, children[..j])
      invariant forall c | c in m :: Reassessed(m[c], was[c], start[c])
    {
      assert children[..j + 1][..j] == children[..j];
      VisitChild(m, children[j], penalty, objects, was, start);
    }
    assert NumsOf(m, objects) == LowerChildren(s, penalty, children) by { assert children[..|children|] == children; }
  }

  /** The topological traversal. */
  method PropagateInPlace(g: Graph, m: map<string, Belief>, order: seq<string>, attenuation: real, ghost objects: set<Belief>,
                          ghost was: map<string, Assessment>, ghost start: Nums)
    requires Among(m, objects) && OneConcept(m) && was.Keys == start.Keys == m.Keys && forall v | v in order :: v in g.adj
    requires forall c | c in m :: Reassessed(m[c], was[c], start[c])
    modifies (set c | c in m :: m[c])`propagatedAdjustment, (set c | c in m :: m[c])`finalConfidence, (set c | c in m :: m[c])`assessment
    ensures NumsOf(m, objects) == Pass(g, old(NumsOf(m, objects)), order, attenuation)
    ensures forall c | c in m :: Reassessed(m[c], was[c], start[c])
  {
    ghost var s := NumsOf(m, objects);
    for i := 0 to |order|
      invariant NumsOf(m, objects) == Pass(g, s, order[..i], attenuation)
      invariant forall c | c in m :: Reassessed(m[c], was[c], start[c])
    {
      assert order[..i + 1][..i] == order[..i];
      VisitParent(g, m, order[i], attenuation, objects, was, start);
    }
    assert order[..|order|] == order;
  }

  // ----- Dependents

  /** The ids of the beliefs that stand for the targets. */
  function ChildIds(m: map<string, Belief>, targets: seq<string>): seq<string> {
    if targets == [] then []
    else
      var n := |targets| - 1;
      ChildIds(m, targets[..n]) + if targets[n] in m then [m[targets[n]].beliefId] else []
  }

  /** `dependent_belief_ids` afterwards: extended without repeats, then sorted. */
  function Linked(dependents: seq<string>, children: seq<string>): seq<string> {
    StableSort(AdjoinAll(dependents, children), StrLe)
  }

  /** A belief's dependents: those it had and the beliefs of its targets, sorted, each once. */
  lemma LinkedExact(dependents: seq<string>, children: seq<string>)
    ensures forall x :: x in Linked(dependents, children) <==> x in dependents || x in children
    ensures Sorted(Linked(dependents, children), StrLe)
    ensures NoDup(dependents) ==> NoDup(Linked(dependents, children))
  {
    AdjoinAllExact(dependents, children);
    SortKeepsElements(AdjoinAll(dependents, children), StrLe);
    StrLeOrder();
    StableSortCorrect(AdjoinAll(dependents, children), StrLe);
  }

  method LinkOne(b: Belief, m: map<string, Belief>, targets: seq<string>)
    modifies b`dependentBeliefIds
    ensures b.dependentBeliefIds == Linked(old(b.dependentBeliefIds), ChildIds(m, targets))
  {
    for j := 0 to |targets|
      invariant b.dependentBeliefIds == AdjoinAll(old(b.dependentBeliefIds), ChildIds(m, targets[..j]))
    {
      assert targets[..j + 1][..j] == targets[..j];
      if targets[j] in m {
        ghost var ids := ChildIds(m, targets[..j]);
        assert (ids + [m[targets[j]].beliefId])[..|ids|] == ids;
        if m[targets[j]].beliefId !in b.dependentBeliefIds {
          b.dependentBeliefIds := b.dependentBeliefIds + [m[targets[j]].beliefId];
        }
      } else {
        assert ChildIds(m, targets[..j + 1]) == ChildIds(m, targets[..j]);
      }
    }
    assert targets[..|targets|] == targets;
    b.dependentBeliefIds := StableSort(b.dependentBeliefIds, StrLe);
  }

  ghost predicate LinkedTo(g: Graph, m: map<string, Belief>, c: string, was: seq<string>)
    requires c in m
    reads m[c]
  {
    m[c].dependentBeliefIds == if c in g.adj then Linked(was, ChildIds(m, g.adj[c])) else was
  }

  /** The dependents when the sources in `done` have been dealt with. */
  ghost predicate LinkedSoFar(g: Graph, m: map<string, Belief>, c: string, was: seq<string>, done: seq<string>)
    requires c in m
    reads m[c]
  {
    m[c].dependentBeliefIds == if c in done && c in g.adj then Linked(was, ChildIds(m, g.adj[c])) else was
  }

  /** The body of the loop over the sources. */
  method LinkSource(g: Graph, m: map<string, Belief>, src: string, ghost was: map<string, seq<string>>, ghost done: seq<string>)
    requires OneConcept(m) && src in g.adj && src !in done && was.Keys == m.Keys
    requires forall c | c in m :: LinkedSoFar(g, m, c, was[c], done)
    modifies (set c | c in m && c == src :: m[c])`dependentBeliefIds
    ensures forall c | c in m :: LinkedSoFar(g, m, c, was[c], done + [src])
  {
    if src in m {
      assert m[src].dependentBeliefIds == was[src];
      LinkOne(m[src], m, g.adj[src]);
    }
    forall c | c in m ensures LinkedSoFar(g, m, c, was[c], done + [src]) {
      assert old(LinkedSoFar(g, m, c, was[c], done));
      assert c in done + [src] <==> c in done || c == src;
    }
  }

  /** The loop over the sources. */
  method LinkDependents(g: Graph, m: map<string, Belief>, ghost was: map<string, seq<string>>)
    requires OneConcept(m) && Proper(g) && was.Keys == m.Keys && forall c | c in m :: m[c].dependentBeliefIds == was[c]
    modifies (set c | c in m :: m[c])`dependentBeliefIds
    ensures forall c | c in m :: LinkedTo(g, m, c, was[c])
    ensures forall c | c in m :: m[c].Numbers() == old(m[c].Numbers()) && m[c].assessment == old(m[c].assessment)
  {
    for i := 0 to |g.nodes|
      invariant forall c | c in m :: LinkedSoFar(g, m, c, was[c], g.nodes[..i])
    {
      assert g.nodes[..i + 1] == g.nodes[..i] + [g.nodes[i]];
      LinkSource(g, m, g.nodes[i], was, g.nodes[..i]);
    }
    assert g.nodes[..|g.nodes|] == g.nodes;
  }

  // ----- The whole engine

  ghost function Objects(beliefs: seq<Belief>): set<Belief> {
    set b | b in beliefs
  }

  /** The fields of the beliefs before propagation. */
  ghost predicate Recorded(m: map<string, Belief>, assessments: map<string, Assessment>, dependents: map<string, seq<string>>)
    reads set c | c in m :: m[c]
  {
    && assessments.Keys == m.Keys && dependents.Keys == m.Keys
    && forall c | c in m :: m[c].assessment == assessments[c] && m[c].dependentBeliefIds == dependents[c]
  }

  /** Both loops over the beliefs, once the order is known. */
  method UpdateBeliefs(g: Graph, m: map<string, Belief>, order: seq<string>, attenuation: real, ghost objects: set<Belief>,
                       ghost start: Nums, ghost assessments: map<string, Assessment>, ghost dependents: map<string, seq<string>>)
    requires Among(m, objects) && OneConcept(m) && Proper(g) && forall v | v in order :: v in g.adj
    requires NumsOf(m, objects) == start && Recorded(m, assessments, dependents)
    modifies set c | c in m :: m[c]
    ensures NumsOf(m, objects) == Pass(g, start, order, attenuation)
    ensures forall c | c in m :: Reassessed(m[c], assessments[c], start[c])
    ensures forall c | c in m :: LinkedTo(g, m, c, dependents[c])
  {
    LinkDependents(g, m, dependents);
    assert NumsOf(m, objects) == start;
    PropagateInPlace(g, m, order, attenuation, objects, assessments, start);
  }

  /** Everything about a belief that can change. */
  function Fields(b: Belief): (Num, Assessment, seq<string>)
    reads b
  {
    (b.Numbers(), b.assessment, b.dependentBeliefIds)
  }

  /** What a solution on the objects says of the list of beliefs. */
  lemma ListSolved(xs: seq<Held>, beliefs: seq<Belief>, ids: OMap<string>, s: Nums)
    requires |xs| == |beliefs| && forall i | 0 <= i < |xs| :: xs[i].beliefId == beliefs[i].beliefId
    requires var m := BeliefMap(beliefs, ids); s.Keys == m.Keys && forall c | c in m :: s[c] == m[c].Numbers()
    requires forall i | 0 <= i < |xs| && beliefs[i] !in BeliefMap(beliefs, ids).Values :: beliefs[i].Numbers() == xs[i].num
    ensures forall i | 0 <= i < |xs| && LastOfId(xs, HeldId, i) :: HoldsSolved(xs[i], ids, s, NumbersOf(beliefs)[i])
  {
    var m := BeliefMap(beliefs, ids);
    BeliefMapExact(beliefs, ids);
    forall i | 0 <= i < |xs| && LastOfId(xs, HeldId, i) ensures HoldsSolved(xs[i], ids, s, NumbersOf(beliefs)[i]) {
      var c := ConceptOf(ids, xs[i].beliefId);
      if c.Some? {
        MappedExact(beliefs, IdOf, ids, c.value);
        assert StandsFor(beliefs, IdOf, ids, c.value, i);
        assert m[c.value] == beliefs[i];
      } else {
        assert beliefs[i] !in m.Values;
      }
    }
  }

  /** Both loops, as seen from the whole list of beliefs. */
  method UpdateListed(beliefs: seq<Belief>, g: Graph, m: map<string, Belief>, order: seq<string>, attenuation: real, ghost start: Nums)
    requires Among(m, Objects(beliefs)) && OneConcept(m) && Proper(g) && forall v | v in order :: v in g.adj
    requires NumsOf(m, Objects(beliefs)) == start
    modifies beliefs
    ensures NumsOf(m, Objects(beliefs)) == Pass(g, start, order, attenuation)
    ensures forall b | b in beliefs :: Reassessed(b, old(b.assessment), old(b.Numbers()))
    ensures forall c | c in m :: LinkedTo(g, m, c, old(m[c].dependentBeliefIds))
    ensures forall b | b in beliefs && b !in m.Values :: Fields(b) == old(Fields(b))
  {
    ghost var assessments := map c | c in m :: m[c].assessment;
    ghost var dependents := map c | c in m :: m[c].dependentBeliefIds;
    UpdateBeliefs(g, m, order, attenuation, Objects(beliefs), start, assessments, dependents);
    forall b | b in beliefs ensures Reassessed(b, old(b.assessment), old(b.Numbers())) {
      if b in m.Values {
        var c :| c in m && m[c] == b;
        assert Reassessed(m[c], assessments[c], start[c]);
      }
    }
  }

  lemma HeldAll(xs: seq<Held>, beliefs: seq<Belief>)
    requires xs == HeldOf(beliefs)
    ensures forall i | 0 <= i < |beliefs| :: xs[i] == Held(beliefs[i].beliefId, beliefs[i].Numbers())
  {
    forall i | 0 <= i < |beliefs| ensures xs[i] == Held(beliefs[i].beliefId, beliefs[i].Numbers()) { HeldAt(beliefs, i); }
  }

  lemma MappedNums(xs: seq<Held>, beliefs: seq<Belief>, ids: OMap<string>)
    requires xs == HeldOf(beliefs) && Among(BeliefMap(beliefs, ids), Objects(beliefs))
    ensures NumsOf(BeliefMap(beliefs, ids), Objects(beliefs)) == StartNums(xs, ids)
  {
    HeldMapped(beliefs, ids);
    SameNums(BeliefMap(beliefs, ids), Mapped(xs, HeldId, ids), Objects(beliefs));
  }

  lemma SameNums(m: map<string, Belief>, h: map<string, Held>, objects: set<Belief>)
    requires Among(m, objects) && m.Keys == h.Keys && forall c | c in m :: h[c] == Held(m[c].beliefId, m[c].Numbers())
    ensures NumsOf(m, objects) == map c | c in h :: h[c].num
  {
  }

  /** Of different objects, those in the belief map are the last of their ids. */
  lemma MappedIsLast(xs: seq<Held>, beliefs: seq<Belief>, ids: OMap<string>, i: nat)
    requires |xs| == |beliefs| && NoDup(beliefs) && forall k | 0 <= k < |xs| :: xs[k].beliefId == beliefs[k].beliefId
    requires i < |xs| && beliefs[i] in BeliefMap(beliefs, ids).Values
    ensures LastOfId(xs, HeldId, i)
  {
    var m := BeliefMap(beliefs, ids);
    var c :| c in m && m[c] == beliefs[i];
    MappedExact(beliefs, IdOf, ids, c);
    var k: nat :| StandsFor(beliefs, IdOf, ids, c, k) && m[c] == beliefs[k];
    assert k == i;
  }

  /** So the others stay as they were. */
  lemma ReplacedStay(xs: seq<Held>, beliefs: seq<Belief>, ids: OMap<string>)
    requires |xs| == |beliefs| && NoDup(beliefs) && forall i | 0 <= i < |xs| :: xs[i].beliefId == beliefs[i].beliefId
    requires forall i | 0 <= i < |xs| && beliefs[i] !in BeliefMap(beliefs, ids).Values :: beliefs[i].Numbers() == xs[i].num
    ensures forall i | 0 <= i < |xs| && !LastOfId(xs, HeldId, i) :: NumbersOf(beliefs)[i] == xs[i].num
  {
    forall i | 0 <= i < |xs| && beliefs[i] in BeliefMap(beliefs, ids).Values ensures LastOfId(xs, HeldId, i) {
      MappedIsLast(xs, beliefs, ids, i);
    }
  }

  /** The rest of `propagate_beliefs`, once the topological order is known. */
  method PropagateAlong(beliefs: seq<Belief>, ids: OMap<string>, g: Graph, order: seq<string>, attenuation: real, ghost xs: seq<Held>)
    requires Consistent(ids) && Proper(g) && TopologicalOrder(g, order) && xs == HeldOf(beliefs)
    modifies beliefs
    ensures ListSolves(xs, ids, g, attenuation, NumbersOf(beliefs))
    ensures NoDup(beliefs) ==> forall i | 0 <= i < |xs| && !LastOfId(xs, HeldId, i) :: NumbersOf(beliefs)[i] == xs[i].num
    ensures forall b | b in beliefs :: Reassessed(b, old(b.assessment), old(b.Numbers()))
    ensures var m := BeliefMap(beliefs, ids);
            && (forall c | c in m :: m[c] in beliefs && LinkedTo(g, m, c, old(m[c].dependentBeliefIds)))
            && (forall b | b in beliefs && b !in m.Values :: Fields(b) == old(Fields(b)))
  {
    var m := MapBeliefs(beliefs, ids);
    BeliefMapExact(beliefs, ids);
    MappedNums(xs, beliefs, ids);
    HeldAll(xs, beliefs);
    PassSolves(g, StartNums(xs, ids), order, attenuation);
    UpdateListed(beliefs, g, m, order, attenuation, StartNums(xs, ids));
    ListSolved(xs, beliefs, ids, NumsOf(m, Objects(beliefs)));
    if NoDup(beliefs) { ReplacedStay(xs, beliefs, ids); }
  }

  /**
   `propagate_beliefs`. With a cycle among the concepts nothing changes; otherwise the confidences
   afterwards are the one solution of the propagation equations.
   */
  method PropagateBeliefs(beliefs: seq<Belief>, ids: OMap<string>, support: OMap<seq<string>>, attenuation: real)
    requires Consistent(ids) && Consistent(support)
    modifies beliefs
    ensures Propagated(old(HeldOf(beliefs)), ids, support.at, attenuation, NumbersOf(beliefs))
    ensures NoDup(beliefs) ==> Settled(old(HeldOf(beliefs)), ids, support.at, attenuation, NumbersOf(beliefs))
    ensures forall b | b in beliefs :: Reassessed(b, old(b.assessment), old(b.Numbers()))
    ensures !Acyclic(Restrict(ids.keys, support.at)) ==> forall b | b in beliefs :: Fields(b) == old(Fields(b))
    ensures Acyclic(Restrict(ids.keys, support.at)) ==>
              var g, m := Restrict(ids.keys, support.at), BeliefMap(beliefs, ids);
              && (forall c | c in m :: m[c] in beliefs && LinkedTo(g, m, c, old(m[c].dependentBeliefIds)))
              && (forall b | b in beliefs && b !in m.Values :: Fields(b) == old(Fields(b)))
  {
    ghost var xs := HeldOf(beliefs);
    HeldAll(xs, beliefs);
    var g, inDegree := BuildGraph(ids.keys, support);
    RestrictProper(ids.keys, support.at);
    var order := KahnSort(g, inDegree);
    if |order| == |ids.keys| {
      PropagateAlong(beliefs, ids, g, order, attenuation, xs);
    }
  }
}
