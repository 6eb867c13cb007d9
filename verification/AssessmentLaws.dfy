/** What more or less evidence does to the confidence of a belief, and to those of the beliefs it supports. */
module AssessmentLaws {
  import opened Orders
  import opened OrderedMaps
  import opened SupportGraph
  import opened Propagation
  import opened PropagationLaws
  import opened ConceptMaps
  import opened BeliefOrder
  import opened Beliefs
  import opened Aggregation
  import opened Engine

  // ----- One bundle

  /** No weight turns evidence against itself. */
  predicate Sensible(config: ReasoningConfig) {
    && config.attenuation >= 0.0 && config.agreementWeight >= 0.0 && config.corroborationWeight >= 0.0
    && config.contradictionPenaltyWeight >= 0.0 && config.stalenessPenaltyWeight >= 0.0
  }

  function Contradictions(b: Bundle): nat { |b.contradictingEvidence| + b.contradictionFindings }

  /** Nothing speaks more for `a` than for `b`, and nothing less against it. */
  predicate NoStronger(a: Bundle, b: Bundle) {
    && a.baseConfidence <= b.baseConfidence && a.sourceDiversity <= b.sourceDiversity
    && |a.supportingEvidence| <= |b.supportingEvidence|
    && Contradictions(a) >= Contradictions(b) && a.freshness >= b.freshness
  }

  function Capped(x: real, weight: real, cap: real): real { Min(cap, Max(0.0, x * weight)) }

  lemma Scaled(x: real, y: real, weight: real)
    requires x <= y && weight >= 0.0
    ensures x * weight <= y * weight
  {
  }

  lemma CappedMonotone(x: real, y: real, weight: real, cap: real)
    requires x <= y && weight >= 0.0
    ensures Capped(x, weight, cap) <= Capped(y, weight, cap)
  {
    Scaled(x, y, weight);
  }

  function Net(base: real, agreement: real, corroboration: real, contradiction: real, staleness: real): real {
    Clamp(base + agreement + corroboration - contradiction - staleness)
  }

  /** The scores of an assessment, each from its own evidence. */
  lemma Scores(b: Bundle, config: ReasoningConfig)
    ensures var a := Assess(b, config);
            && a.agreementScore == Capped((b.sourceDiversity - 1) as real, config.agreementWeight, 0.2)
            && a.corroborationScore == Capped(|b.supportingEvidence| as real, config.corroborationWeight, 0.2)
            && a.contradictionPenalty == Capped(Contradictions(b) as real, config.contradictionPenaltyWeight, 1.0)
            && a.stalenessPenalty == Capped(b.freshness, config.stalenessPenaltyWeight, 0.5)
            && a.localConfidence == Net(b.baseConfidence, a.agreementScore, a.corroborationScore, a.contradictionPenalty, a.stalenessPenalty)
  {
  }

  /** Each score moves with its own evidence. */
  lemma ScoresMonotone(a: Bundle, b: Bundle, config: ReasoningConfig)
    requires Sensible(config) && NoStronger(a, b)
    ensures var x, y := Assess(a, config), Assess(b, config);
            && x.agreementScore <= y.agreementScore && x.corroborationScore <= y.corroborationScore
            && x.contradictionPenalty >= y.contradictionPenalty && x.stalenessPenalty >= y.stalenessPenalty
  {
    CappedMonotone((a.sourceDiversity - 1) as real, (b.sourceDiversity - 1) as real, config.agreementWeight, 0.2);
    CappedMonotone(|a.supportingEvidence| as real, |b.supportingEvidence| as real, config.corroborationWeight, 0.2);
    CappedMonotone(Contradictions(b) as real, Contradictions(a) as real, config.contradictionPenaltyWeight, 1.0);
    CappedMonotone(b.freshness, a.freshness, config.stalenessPenaltyWeight, 0.5);
    Scores(a, config);
    Scores(b, config);
  }

  lemma NetMonotone(p: Assessment, q: Assessment, a: real, b: real)
    requires a <= b && p.agreementScore <= q.agreementScore && p.corroborationScore <= q.corroborationScore
    requires p.contradictionPenalty >= q.contradictionPenalty && p.stalenessPenalty >= q.stalenessPenalty
    ensures Net(a, p.agreementScore, p.corroborationScore, p.contradictionPenalty, p.stalenessPenalty)
            <= Net(b, q.agreementScore, q.corroborationScore, q.contradictionPenalty, q.stalenessPenalty)
  {
  }

  /** Evidence that is no stronger gives no higher confidence. */
  lemma LocalMonotone(a: Bundle, b: Bundle, config: ReasoningConfig)
    requires Sensible(config) && NoStronger(a, b)
    ensures Assess(a, config).localConfidence <= Assess(b, config).localConfidence
  {
    ScoresMonotone(a, b, config);
    NetMonotone(Assess(a, config), Assess(b, config), a.baseConfidence, b.baseConfidence);
  }

  /** No score of the bundle is cut off. */
  predicate BelowCaps(b: Bundle, config: ReasoningConfig) {
    && 0.0 <= (b.sourceDiversity - 1) as real * config.agreementWeight <= 0.2
    && 0.0 <= |b.supportingEvidence| as real * config.corroborationWeight <= 0.2
    && 0.0 <= Contradictions(b) as real * config.contradictionPenaltyWeight <= 1.0
    && 0.0 <= b.freshness * config.stalenessPenaltyWeight <= 0.5
  }

  /** What separates two bundles, each piece of evidence at its weight. */
  function Difference(a: Bundle, b: Bundle, config: ReasoningConfig): real {
    b.baseConfidence - a.baseConfidence
    + (b.sourceDiversity - a.sourceDiversity) as real * config.agreementWeight
    + (|b.supportingEvidence| - |a.supportingEvidence|) as real * config.corroborationWeight
    - (Contradictions(b) - Contradictions(a)) as real * config.contradictionPenaltyWeight
    - (b.freshness - a.freshness) * config.stalenessPenaltyWeight
  }

  lemma Apart(x: real, y: real, weight: real, cap: real)
    requires 0.0 <= x * weight <= cap && 0.0 <= y * weight <= cap
    ensures Capped(y, weight, cap) - Capped(x, weight, cap) == (y - x) * weight
  {
  }

  lemma CountsApart(x: int, y: int, weight: real, cap: real)
    requires 0.0 <= x as real * weight <= cap && 0.0 <= y as real * weight <= cap
    ensures Capped(y as real, weight, cap) - Capped(x as real, weight, cap) == (y - x) as real * weight
  {
    Apart(x as real, y as real, weight, cap);
    assert (y - x) as real == y as real - x as real;
  }

  lemma AgreementApart(a: Bundle, b: Bundle, config: ReasoningConfig)
    requires BelowCaps(a, config) && BelowCaps(b, config)
    ensures Assess(b, config).agreementScore - Assess(a, config).agreementScore ==
            (b.sourceDiversity - a.sourceDiversity) as real * config.agreementWeight
  {
    CountsApart(a.sourceDiversity - 1, b.sourceDiversity - 1, config.agreementWeight, 0.2);
    assert b.sourceDiversity - 1 - (a.sourceDiversity - 1) == b.sourceDiversity - a.sourceDiversity;
  }

  lemma CorroborationApart(a: Bundle, b: Bundle, config: ReasoningConfig)
    requires BelowCaps(a, config) && BelowCaps(b, config)
    ensures Assess(b, config).corroborationScore - Assess(a, config).corroborationScore ==
            (|b.supportingEvidence| - |a.supportingEvidence|) as real * config.corroborationWeight
  {
    CountsApart(|a.supportingEvidence|, |b.supportingEvidence|, config.corroborationWeight, 0.2);
  }

  lemma ContradictionApart(a: Bundle, b: Bundle, config: ReasoningConfig)
    requires BelowCaps(a, config) && BelowCaps(b, config)
    ensures Assess(b, config).contradictionPenalty - Assess(a, config).contradictionPenalty ==
            (Contradictions(b) - Contradictions(a)) as real * config.contradictionPenaltyWeight
  {
    CountsApart(Contradictions(a), Contradictions(b), config.contradictionPenaltyWeight, 1.0);
  }

  lemma StalenessApart(a: Bundle, b: Bundle, config: ReasoningConfig)
    requires BelowCaps(a, config) && BelowCaps(b, config)
    ensures Assess(b, config).stalenessPenalty - Assess(a, config).stalenessPenalty == (b.freshness - a.freshness) * config.stalenessPenaltyWeight
  {
    Apart(a.freshness, b.freshness, config.stalenessPenaltyWeight, 0.5);
  }

  /** Below the caps, from a confidence that is not cut off, each piece of evidence counts by exactly its weight. */
  lemma EvidenceCounts(a: Bundle, b: Bundle, config: ReasoningConfig)
    requires BelowCaps(a, config) && BelowCaps(b, config) && 0.0 < Assess(a, config).localConfidence < 1.0
    ensures Assess(b, config).localConfidence == Clamp(Assess(a, config).localConfidence + Difference(a, b, config))
  {
    var x, y := Assess(a, config), Assess(b, config);
    assert x.localConfidence == Net(a.baseConfidence, x.agreementScore, x.corroborationScore, x.contradictionPenalty, x.stalenessPenalty)
      by { Scores(a, config); }
    assert y.localConfidence == Net(b.baseConfidence, y.agreementScore, y.corroborationScore, y.contradictionPenalty, y.stalenessPenalty)
      by { Scores(b, config); }
    AgreementApart(a, b, config);
    CorroborationApart(a, b, config);
    ContradictionApart(a, b, config);
    StalenessApart(a, b, config);
    NetDifference(x, y, a.baseConfidence, b.baseConfidence, Difference(a, b, config));
  }

  lemma NetDifference(p: Assessment, q: Assessment, a: real, b: real, d: real)
    requires d == b - a + (q.agreementScore - p.agreementScore) + (q.corroborationScore - p.corroborationScore)
                  - (q.contradictionPenalty - p.contradictionPenalty) - (q.stalenessPenalty - p.stalenessPenalty)
    requires 0.0 < Net(a, p.agreementScore, p.corroborationScore, p.contradictionPenalty, p.stalenessPenalty) < 1.0
    ensures Net(b, q.agreementScore, q.corroborationScore, q.contradictionPenalty, q.stalenessPenalty)
            == Clamp(Net(a, p.agreementScore, p.corroborationScore, p.contradictionPenalty, p.stalenessPenalty) + d)
  {
  }

  /** One contradiction more, of either kind, costs its weight. */
  lemma OneMoreContradiction(a: Bundle, b: Bundle, config: ReasoningConfig)
    requires Contradictions(b) == Contradictions(a) + 1
    requires a.baseConfidence == b.baseConfidence && a.sourceDiversity == b.sourceDiversity && a.freshness == b.freshness
    requires |a.supportingEvidence| == |b.supportingEvidence|
    requires BelowCaps(a, config) && BelowCaps(b, config) && 0.0 < Assess(a, config).localConfidence < 1.0
    ensures Assess(b, config).localConfidence == Clamp(Assess(a, config).localConfidence - config.contradictionPenaltyWeight)
  {
    EvidenceCounts(a, b, config);
  }

  /** With one source and nothing else to go by, the confidence is the base confidence. */
  lemma BaseAlone(b: Bundle, config: ReasoningConfig)
    requires b.sourceDiversity == 1 && b.supportingEvidence == [] && Contradictions(b) == 0 && b.freshness == 0.0
    ensures Assess(b, config).localConfidence == Clamp(b.baseConfidence)
  {
  }

  /** The score is the same, or cut off in both cases. */
  predicate SameScore(x: real, y: real, weight: real, cap: real) {
    x == y || (x * weight >= cap && y * weight >= cap)
  }

  lemma SameCapped(x: real, y: real, weight: real, cap: real)
    requires SameScore(x, y, weight, cap) && cap >= 0.0
    ensures Capped(x, weight, cap) == Capped(y, weight, cap)
  {
  }

  /** Beyond the caps more evidence of the same kind changes nothing. */
  lemma CapsHold(a: Bundle, b: Bundle, config: ReasoningConfig)
    requires a.baseConfidence == b.baseConfidence
    requires SameScore((a.sourceDiversity - 1) as real, (b.sourceDiversity - 1) as real, config.agreementWeight, 0.2)
    requires SameScore(|a.supportingEvidence| as real, |b.supportingEvidence| as real, config.corroborationWeight, 0.2)
    requires SameScore(Contradictions(a) as real, Contradictions(b) as real, config.contradictionPenaltyWeight, 1.0)
    requires SameScore(a.freshness, b.freshness, config.stalenessPenaltyWeight, 0.5)
    ensures Assess(a, config).localConfidence == Assess(b, config).localConfidence
  {
    SameCapped((a.sourceDiversity - 1) as real, (b.sourceDiversity - 1) as real, config.agreementWeight, 0.2);
    SameCapped(|a.supportingEvidence| as real, |b.supportingEvidence| as real, config.corroborationWeight, 0.2);
    SameCapped(Contradictions(a) as real, Contradictions(b) as real, config.contradictionPenaltyWeight, 1.0);
    SameCapped(a.freshness, b.freshness, config.stalenessPenaltyWeight, 0.5);
    Scores(a, config);
    Scores(b, config);
  }

  /** The assessment under the default weights of a bundle with every kind of evidence. */
  lemma DefaultWeights(b: Bundle)
    requires b.baseConfidence == 0.8 && b.sourceDiversity == 3 && |b.supportingEvidence| == 2
    requires |b.contradictingEvidence| == 1 && b.contradictionFindings == 0 && b.freshness == 10.0
    ensures var a := Assess(b, DefaultReasoning);
            && a.baseConfidence == 0.8 && a.agreementScore == 0.2 && a.corroborationScore == 0.1
            && a.contradictionPenalty == 0.3 && a.stalenessPenalty == 0.1 && a.localConfidence == a.finalConfidence == 0.7
  {
  }

  // ----- The beliefs of `reason`

  predicate SameText(a: Bundle, b: Bundle) {
    a.conceptId == b.conceptId && a.title == b.title && a.content == b.content
  }

  /** The same concepts with the same texts, and nowhere stronger evidence. */
  ghost predicate NowhereStronger(bs: seq<Bundle>, cs: seq<Bundle>) {
    |bs| == |cs| && forall i | 0 <= i < |bs| :: SameText(bs[i], cs[i]) && NoStronger(bs[i], cs[i])
  }

  lemma {:induction false} SameIdsOf(bs: seq<Bundle>, cs: seq<Bundle>, norm: TitleNormaliser)
    requires |bs| == |cs| && forall i | 0 <= i < |bs| :: SameText(bs[i], cs[i])
    ensures IdsOf(bs, norm) == IdsOf(cs, norm)
  {
    if bs != [] {
      var n := |bs| - 1;
      SameIdsOf(bs[..n], cs[..n], norm);
      assert SameText(bs[n], cs[n]);
    }
  }

  /** The local confidences are as they start. */
  lemma HeldBelow(bs: seq<Bundle>, cs: seq<Bundle>, norm: TitleNormaliser, config: ReasoningConfig, i: nat)
    requires Sensible(config) && NowhereStronger(bs, cs) && i < |bs|
    ensures var h, k := HeldFromAll(bs, norm, config)[i], HeldFromAll(cs, norm, config)[i];
            && HeldId(h) == HeldId(k) && h.num.adjustment == k.num.adjustment == 0.0
            && h.num.final == h.num.local <= k.num.local == k.num.final
  {
    assert SameText(bs[i], cs[i]);
    LocalMonotone(bs[i], cs[i], config);
  }

  /** A concept that one list maps is mapped by the other, by the belief at the same place. */
  lemma StartBelowAt(hs: seq<Held>, ks: seq<Held>, ids: OMap<string>, c: string)
    requires |hs| == |ks| && forall i | 0 <= i < |hs| :: HeldId(hs[i]) == HeldId(ks[i])
    requires forall i | 0 <= i < |hs| :: NumBelow(hs[i].num, ks[i].num)
    requires c in StartNums(hs, ids)
    ensures c in StartNums(ks, ids) && BelowAt(StartNums(hs, ids), StartNums(ks, ids), c)
  {
    MappedExact(hs, HeldId, ids, c);
    MappedExact(ks, HeldId, ids, c);
    var i: nat :| StandsFor(hs, HeldId, ids, c, i) && Mapped(hs, HeldId, ids)[c] == hs[i];
    assert StandsFor(ks, HeldId, ids, c, i);
    assert NumBelow(hs[i].num, ks[i].num);
  }

  predicate NumBelow(m: Num, n: Num) {
    m.local <= n.local && m.adjustment <= n.adjustment && m.final <= n.final
  }

  lemma MappedBoth(hs: seq<Held>, ks: seq<Held>, ids: OMap<string>, c: string)
    requires |hs| == |ks| && forall i | 0 <= i < |hs| :: HeldId(hs[i]) == HeldId(ks[i])
    requires c in StartNums(ks, ids)
    ensures c in StartNums(hs, ids)
  {
    MappedExact(hs, HeldId, ids, c);
    MappedExact(ks, HeldId, ids, c);
    var i: nat :| StandsFor(ks, HeldId, ids, c, i) && Mapped(ks, HeldId, ids)[c] == ks[i];
    assert StandsFor(hs, HeldId, ids, c, i);
  }

  lemma StartsBelow(bs: seq<Bundle>, cs: seq<Bundle>, norm: TitleNormaliser, config: ReasoningConfig)
    requires Sensible(config) && NowhereStronger(bs, cs)
    ensures Below(StartNums(HeldFromAll(bs, norm, config), IdsOf(bs, norm)), StartNums(HeldFromAll(cs, norm, config), IdsOf(cs, norm)))
  {
    var hs, ks, ids := HeldFromAll(bs, norm, config), HeldFromAll(cs, norm, config), IdsOf(bs, norm);
    SameIdsOf(bs, cs, norm);
    forall i | 0 <= i < |hs| ensures HeldId(hs[i]) == HeldId(ks[i]) && NumBelow(hs[i].num, ks[i].num) { HeldBelow(bs, cs, norm, config, i); }
    forall c | c in StartNums(hs, ids) ensures c in StartNums(ks, ids) && BelowAt(StartNums(hs, ids), StartNums(ks, ids), c) {
      StartBelowAt(hs, ks, ids, c);
    }
    forall c | c in StartNums(ks, ids) ensures c in StartNums(hs, ids) { MappedBoth(hs, ks, ids, c); }
  }

  /** The solutions that the two lists hold, one below the other. */
  lemma SolutionsBelow(bs: seq<Bundle>, cs: seq<Bundle>, norm: TitleNormaliser, support: map<string, seq<string>>, config: ReasoningConfig, s: Nums, t: Nums)
    requires Sensible(config) && NowhereStronger(bs, cs) && Acyclic(Restrict(IdsOf(bs, norm).keys, support))
    requires var g := Restrict(IdsOf(bs, norm).keys, support);
             && Solves(g, StartNums(HeldFromAll(bs, norm, config), IdsOf(bs, norm)), s, config.attenuation)
             && Solves(g, StartNums(HeldFromAll(cs, norm, config), IdsOf(cs, norm)), t, config.attenuation)
    ensures Below(s, t)
  {
    var ids := IdsOf(bs, norm);
    var g := Restrict(ids.keys, support);
    StartsBelow(bs, cs, norm, config);
    StartIsKnown(HeldFromAll(bs, norm, config), ids);
    IdsConsistent(bs, norm);
    RestrictProper(ids.keys, support);
    var order := AcyclicHasOrder(g, []);
    PropagationMonotone(g, StartNums(HeldFromAll(bs, norm, config), ids), StartNums(HeldFromAll(cs, norm, config), IdsOf(cs, norm)),
                        s, t, config.attenuation, order);
  }

  /** A belief that propagation does not reach. */
  lemma UnreachedBelow(bs: seq<Bundle>, cs: seq<Bundle>, norm: TitleNormaliser, support: map<string, seq<string>>, config: ReasoningConfig,
                       after: seq<Num>, later: seq<Num>, i: nat)
    requires Sensible(config) && NowhereStronger(bs, cs) && i < |bs|
    requires Reasoned(bs, norm, support, config, after) && Reasoned(cs, norm, support, config, later)
    requires !Acyclic(Restrict(IdsOf(bs, norm).keys, support)) || !LastOfId(HeldFromAll(bs, norm, config), HeldId, i)
    ensures after[i].local <= later[i].local && after[i].final <= later[i].final
  {
    var hs, ks := HeldFromAll(bs, norm, config), HeldFromAll(cs, norm, config);
    SameIdsOf(bs, cs, norm);
    SameLast(bs, cs, norm, config, i);
    HeldBelow(bs, cs, norm, config, i);
    assert after[i] == hs[i].num && later[i] == ks[i].num;
  }

  lemma SameLast(bs: seq<Bundle>, cs: seq<Bundle>, norm: TitleNormaliser, config: ReasoningConfig, i: nat)
    requires Sensible(config) && NowhereStronger(bs, cs) && i < |bs|
    ensures LastOfId(HeldFromAll(bs, norm, config), HeldId, i) <==> LastOfId(HeldFromAll(cs, norm, config), HeldId, i)
  {
    var hs, ks := HeldFromAll(bs, norm, config), HeldFromAll(cs, norm, config);
    forall k | 0 <= k < |hs| ensures HeldId(hs[k]) == HeldId(ks[k]) { HeldBelow(bs, cs, norm, config, k); }
  }

  /** One that it may reach. */
  lemma ReachedBelow(bs: seq<Bundle>, cs: seq<Bundle>, norm: TitleNormaliser, support: map<string, seq<string>>, config: ReasoningConfig,
                     after: seq<Num>, later: seq<Num>, i: nat)
    requires Sensible(config) && NowhereStronger(bs, cs) && i < |bs| == |after| == |later|
    requires Acyclic(Restrict(IdsOf(bs, norm).keys, support)) && LastOfId(HeldFromAll(bs, norm, config), HeldId, i)
    requires var g := Restrict(IdsOf(bs, norm).keys, support);
             && ListSolves(HeldFromAll(bs, norm, config), IdsOf(bs, norm), g, config.attenuation, after)
             && ListSolves(HeldFromAll(cs, norm, config), IdsOf(cs, norm), g, config.attenuation, later)
    ensures after[i].local <= later[i].local && after[i].final <= later[i].final
  {
    var hs, ks, ids := HeldFromAll(bs, norm, config), HeldFromAll(cs, norm, config), IdsOf(bs, norm);
    var g := Restrict(ids.keys, support);
    SameIdsOf(bs, cs, norm);
    SameLast(bs, cs, norm, config, i);
    HeldBelow(bs, cs, norm, config, i);
    var s := SolutionAt(hs, ids, g, config.attenuation, after, i);
    var t := SolutionAt(ks, ids, g, config.attenuation, later, i);
    SolutionsBelow(bs, cs, norm, support, config, s, t);
    HoldBelow(hs[i], ks[i], ids, s, t, after[i], later[i]);
  }

  lemma HoldBelow(h: Held, k: Held, ids: OMap<string>, s: Nums, t: Nums, a: Num, b: Num)
    requires HeldId(h) == HeldId(k) && h.num.local <= k.num.local && h.num.final <= k.num.final
    requires Below(s, t) && HoldsSolved(h, ids, s, a) && HoldsSolved(k, ids, t, b)
    ensures a.local <= b.local && a.final <= b.final
  {
    var c := ConceptOf(ids, HeldId(h));
    if c.Some? { assert BelowAt(s, t, c.value); }
  }

  /** Main theorem: with nowhere stronger evidence no belief ends with a higher confidence, whatever supports it. */
  lemma ReasonMonotone(bs: seq<Bundle>, cs: seq<Bundle>, norm: TitleNormaliser, support: map<string, seq<string>>, config: ReasoningConfig,
                       after: seq<Num>, later: seq<Num>, i: nat)
    requires Sensible(config) && NowhereStronger(bs, cs) && i < |bs|
    requires Reasoned(bs, norm, support, config, after) && Reasoned(cs, norm, support, config, later)
    ensures after[i].local <= later[i].local && after[i].final <= later[i].final
  {
    if Acyclic(Restrict(IdsOf(bs, norm).keys, support)) && LastOfId(HeldFromAll(bs, norm, config), HeldId, i) {
      SameIdsOf(bs, cs, norm);
      ReachedBelow(bs, cs, norm, support, config, after, later, i);
    } else {
      UnreachedBelow(bs, cs, norm, support, config, after, later, i);
    }
  }

  // ----- More conflicts

  /** The state with more in its conflict queue. */
  function WithConflicts(extra: KnowledgeState -> seq<Conflict>): KnowledgeState -> KnowledgeState {
    (s: KnowledgeState) => s.(conflicts := s.conflicts + extra(s))
  }

  lemma {:induction false} MentionsAppend(cs: seq<Conflict>, ds: seq<Conflict>, norm: TitleNormaliser, t: string)
    ensures MentionCount(cs + ds, norm, t) == MentionCount(cs, norm, t) + MentionCount(ds, norm, t)
  {
    if ds == [] {
      assert cs + ds == cs;
    } else {
      var n := |ds| - 1;
      MentionsAppend(cs, ds[..n], norm, t);
      assert (cs + ds)[..|cs| + n] == cs + ds[..n];
    }
  }

  /** The knowledge is the same, and no title is mentioned less often. */
  lemma {:induction false} OnlyMoreMentions(states: seq<KnowledgeState>, extra: KnowledgeState -> seq<Conflict>, norm: TitleNormaliser, t: string)
    ensures var more := Apply(WithConflicts(extra), states);
            && ActiveOf(more) == ActiveOf(states)
            && MentionCount(ConflictsOf(more), norm, t) >= MentionCount(ConflictsOf(states), norm, t)
  {
    if states != [] {
      var n := |states| - 1;
      OnlyMoreMentions(states[..n], extra, norm, t);
      var more := Apply(WithConflicts(extra), states);
      assert more[..n] == Apply(WithConflicts(extra), states[..n]) && more[n] == WithConflicts(extra)(states[n]);
      MentionsAppend(ConflictsOf(states[..n]), states[n].conflicts, norm, t);
      MentionsAppend(ConflictsOf(more[..n]), more[n].conflicts, norm, t);
      MentionsAppend(states[n].conflicts, extra(states[n]), norm, t);
    }
  }

  lemma InOrderWithConflicts(states: seq<KnowledgeState>, extra: KnowledgeState -> seq<Conflict>)
    ensures InOrder(Apply(WithConflicts(extra), states)) == Apply(WithConflicts(extra), InOrder(states))
  {
    assert KeepsOrder(WithConflicts(extra), states, ProjectLeq);
    ApplySort(WithConflicts(extra), states, ProjectLeq);
  }

  /** The groups differ in their findings only. */
  lemma GroupsWithConflicts(sorted: seq<KnowledgeState>, extra: KnowledgeState -> seq<Conflict>, norm: TitleNormaliser)
    ensures var m, r := GroupsOf(sorted, norm), GroupsOf(Apply(WithConflicts(extra), sorted), norm);
            && r.keys == m.keys && r.at.Keys == m.at.Keys
            && forall t | t in m.at :: r.at[t] == m.at[t].(findings := r.at[t].findings) && r.at[t].findings >= m.at[t].findings
  {
    var more := Apply(WithConflicts(extra), sorted);
    OnlyMoreMentions(sorted, extra, norm, "");
    ConflictsFound(KnowledgeGroups(sorted, norm), ConflictsOf(sorted), norm);
    ConflictsFound(KnowledgeGroups(sorted, norm), ConflictsOf(more), norm);
    forall t ensures MentionCount(ConflictsOf(more), norm, t) >= MentionCount(ConflictsOf(sorted), norm, t) {
      OnlyMoreMentions(sorted, extra, norm, t);
    }
  }

  lemma BundlesWithFindings(titles: seq<string>, r: map<string, Group>, m: map<string, Group>, clock: Clock)
    requires forall t | t in titles :: t in m && t in r && r[t] == m[t].(findings := r[t].findings) && r[t].findings >= m[t].findings
    ensures NowhereStronger(BundlesOf(titles, r, clock), BundlesOf(titles, m, clock))
  {
    forall i | 0 <= i < |titles|
      ensures SameText(BundlesOf(titles, r, clock)[i], BundlesOf(titles, m, clock)[i])
      ensures NoStronger(BundlesOf(titles, r, clock)[i], BundlesOf(titles, m, clock)[i])
    {
      BundlesAt(titles, r, clock, i);
      BundlesAt(titles, m, clock, i);
      assert titles[i] in titles;
    }
  }

  lemma AggregatedWithConflicts(states: seq<KnowledgeState>, extra: KnowledgeState -> seq<Conflict>, norm: TitleNormaliser, clock: Clock)
    ensures NowhereStronger(Aggregated(Apply(WithConflicts(extra), states), norm, clock), Aggregated(states, norm, clock))
  {
    InOrderWithConflicts(states, extra);
    GroupsWithConflicts(InOrder(states), extra, norm);
    var m, r := GroupsOf(InOrder(states), norm), GroupsOf(Apply(WithConflicts(extra), InOrder(states)), norm);
    GroupsExact(InOrder(states), norm);
    SortKeepsElements(m.keys, StrLe);
    BundlesWithFindings(TitlesOf(m), r.at, m.at, clock);
  }

  /** More conflicts in the queues of any projects raise no confidence, local or final, of any belief of `reason`. */
  lemma ConflictsRaiseNothing(states: seq<KnowledgeState>, extra: KnowledgeState -> seq<Conflict>, norm: TitleNormaliser, clock: Clock,
                              config: ReasoningConfig, after: seq<Num>, before: seq<Num>, i: nat)
    requires Sensible(config) && ProperStates(states) && ProperStates(Apply(WithConflicts(extra), states))
    requires Reasoned(Aggregated(states, norm, clock), norm, MergedSupport(states).at, config, before)
    requires var more := Apply(WithConflicts(extra), states);
             Reasoned(Aggregated(more, norm, clock), norm, MergedSupport(more).at, config, after)
    requires i < |Aggregated(states, norm, clock)|
    ensures i < |after| && i < |before| && after[i].local <= before[i].local && after[i].final <= before[i].final
  {
    AggregatedWithConflicts(states, extra, norm, clock);
    SupportWithConflicts(states, extra);
    ReasonMonotone(Aggregated(Apply(WithConflicts(extra), states), norm, clock), Aggregated(states, norm, clock), norm,
                   MergedSupport(states).at, config, after, before, i);
  }

  lemma {:induction false} SupportWithConflicts(states: seq<KnowledgeState>, extra: KnowledgeState -> seq<Conflict>)
    requires ProperStates(states)
    ensures ProperStates(Apply(WithConflicts(extra), states)) && MergedSupport(Apply(WithConflicts(extra), states)) == MergedSupport(states)
  {
    if states != [] {
      var n := |states| - 1;
      SupportWithConflicts(states[..n], extra);
      var more := Apply(WithConflicts(extra), states);
      assert more[..n] == Apply(WithConflicts(extra), states[..n]) && more[n] == WithConflicts(extra)(states[n]);
    }
  }
}
