/** Decision synthesis: each belief becomes a classified, ranked item. */
module Synthesis {
  import opened Orders
  import opened OrderedMaps
  import opened Propagation
  import opened PropagationLaws
  import opened Beliefs

  datatype Category = Affirm | Challenge | Resolve | Defer | Monitor
  datatype Urgency = Critical | High | Normal | Low
  datatype Why =
    | HighConfidence | ModerateConfidence | LowConfidence | ActiveContradiction
    | Stale | DependencyDegraded | HighCorroboration

  datatype SynthesisConfig = SynthesisConfig(
    version: string,
    affirmThreshold: real, challengeThreshold: real, deferThreshold: real,
    criticalUrgency: real, highUrgency: real, normalUrgency: real,
    corroborationWeight: real, breadthWeight: real, diversityWeight: real, breadthDivisor: real)

  const DefaultSynthesis := SynthesisConfig("1.0", 0.80, 0.50, 0.40, 0.72, 0.48, 0.24, 0.50, 0.30, 0.20, 5.0)

  /** What synthesis reads of a belief. */
  datatype View = View(
    beliefId: string, title: string, content: string, confidence: real,
    assessment: Assessment, supportingEvidence: seq<string>)

  function ViewOf(b: Belief): View
    reads b
  {
    View(b.beliefId, b.title, b.content, b.finalConfidence, b.assessment, b.supportingEvidence)
  }

  ghost function Views(beliefs: seq<Belief>): seq<View>
    reads beliefs
  {
    if beliefs == [] then []
    else
      var n := |beliefs| - 1;
      Views(beliefs[..n]) + [ViewOf(beliefs[n])]
  }

  datatype Contradiction = Contradiction(id: string, ruleA: string, ruleB: string, suppressed: bool)

  /** The hash inputs of the `CAND-` and `SYN-` ids; the hash is taken as injective. */
  datatype CandidateId = CandidateId(beliefId: string, category: Category, version: string)
  datatype SynthesisId = SynthesisId(candidateId: CandidateId, version: string)

  datatype Candidate = Candidate(
    candidateId: CandidateId, beliefId: string, category: Category, reasons: seq<Why>, confidence: real,
    impact: real, priority: Urgency, contradictionIds: seq<string>, title: string, content: string)

  datatype Item = Item(synthesisId: SynthesisId, candidate: Candidate)

  datatype Report = Report(
    items: seq<Item>, total: nat, byCategory: map<Category, nat>, byPriority: map<Urgency, nat>, version: string)

  // ----- Impact and priority

  /** Rounding to four digits, halves going to the even neighbour. */
  function Round4(x: real): real {
    var n := (x * 10000.0).Floor;
    var d := x * 10000.0 - n as real;
    (if d < 0.5 || (d == 0.5 && n % 2 == 0) then n else n + 1) as real / 10000.0
  }

  /** Rounding does not cross a multiple of 1/10000. */
  lemma RoundWithin(x: real, low: int, high: int)
    requires low as real / 10000.0 <= x <= high as real / 10000.0
    ensures low as real / 10000.0 <= Round4(x) <= high as real / 10000.0
  {
    var n := (x * 10000.0).Floor;
    assert low <= n <= high;
    assert n == high ==> x * 10000.0 - n as real == 0.0;
  }

  function Impact(v: View, config: SynthesisConfig): real
    requires config.breadthDivisor != 0.0
  {
    var breadth := Min(1.0, |v.supportingEvidence| as real / config.breadthDivisor);
    var impact := v.assessment.corroborationScore * config.corroborationWeight
                + breadth * config.breadthWeight
                + v.assessment.agreementScore * config.diversityWeight;
    Round4(Min(1.0, Max(0.0, impact)))
  }

  function PriorityOf(impact: real, confidence: real, config: SynthesisConfig): Urgency {
    var urgency := impact * confidence;
    if urgency >= config.criticalUrgency then Critical
    else if urgency >= config.highUrgency then High
    else if urgency >= config.normalUrgency then Normal
    else Low
  }

  /** Rounding finds a multiple of 1/10000 that is not more than half a step away, the even one of two. */
  lemma RoundExact(x: real)
    ensures var n := (Round4(x) * 10000.0).Floor;
            && Round4(x) == n as real / 10000.0 && -0.5 <= n as real - x * 10000.0 <= 0.5
            && (n as real - x * 10000.0 == 0.5 || n as real - x * 10000.0 == -0.5 ==> n % 2 == 0)
  {
  }

  function Unrounded(v: View, config: SynthesisConfig): real
    requires config.breadthDivisor != 0.0
  {
    v.assessment.corroborationScore * config.corroborationWeight
    + Min(1.0, |v.supportingEvidence| as real / config.breadthDivisor) * config.breadthWeight
    + v.assessment.agreementScore * config.diversityWeight
  }

  lemma ImpactRounds(v: View, config: SynthesisConfig)
    requires config.breadthDivisor != 0.0
    ensures Impact(v, config) == Round4(Min(1.0, Max(0.0, Unrounded(v, config))))
  {
  }

  /** Each score counts at its own weight, up to rounding and the bounds 0 and 1. */
  lemma ImpactNear(v: View, config: SynthesisConfig)
    requires config.breadthDivisor != 0.0
    ensures 0.0 <= Impact(v, config) <= 1.0
    ensures 0.0 <= Unrounded(v, config) <= 1.0 ==> -0.00005 <= Impact(v, config) - Unrounded(v, config) <= 0.00005
    ensures Unrounded(v, config) > 1.0 ==> Impact(v, config) == 1.0
    ensures Unrounded(v, config) < 0.0 ==> Impact(v, config) == 0.0
  {
    var x := Min(1.0, Max(0.0, Unrounded(v, config)));
    ImpactRounds(v, config);
    RoundWithin(x, 0, 10000);
    RoundExact(x);
  }

  /** The default weights, on a belief with each kind of score. */
  lemma DefaultImpact(v: View)
    requires v.assessment.corroborationScore == 0.1 && v.assessment.agreementScore == 0.2 && |v.supportingEvidence| == 2
    ensures Impact(v, DefaultSynthesis) == 0.21
  {
    assert Unrounded(v, DefaultSynthesis) == 0.21;
    RoundWithin(0.21, 2100, 2100);
  }

  /** The priority by impact times confidence, the highest threshold first. */
  lemma PriorityExact(impact: real, confidence: real, config: SynthesisConfig)
    ensures var p, urgency := PriorityOf(impact, confidence, config), impact * confidence;
            && (p == Critical <==> urgency >= config.criticalUrgency)
            && (p == High <==> config.highUrgency <= urgency < config.criticalUrgency)
            && (p == Normal <==> config.normalUrgency <= urgency < config.highUrgency && urgency < config.criticalUrgency)
  {
  }

  // ----- Active contradictions

  predicate Touches(c: Contradiction, evidence: seq<string>) {
    !c.suppressed && (c.ruleA in evidence || c.ruleB in evidence)
  }

  function TouchingIds(evidence: seq<string>, cs: seq<Contradiction>): seq<string> {
    if cs == [] then []
    else
      var n := |cs| - 1;
      var before := TouchingIds(evidence, cs[..n]);
      if Touches(cs[n], evidence) then Adjoin(before, cs[n].id) else before
  }

  /** The ids in order. */
  function ActiveIds(evidence: seq<string>, cs: seq<Contradiction>): seq<string> {
    StableSort(TouchingIds(evidence, cs), StrLe)
  }

  lemma {:induction false} TouchingIdsExact(evidence: seq<string>, cs: seq<Contradiction>, id: string)
    ensures id in TouchingIds(evidence, cs) <==> exists c :: c in cs && Touches(c, evidence) && c.id == id
    ensures NoDup(TouchingIds(evidence, cs))
  {
    if cs != [] {
      var n := |cs| - 1;
      TouchingIdsExact(evidence, cs[..n], id);
      assert cs == cs[..n] + [cs[n]];
    }
  }

  /** The ids of the active contradictions about some of the evidence: each once, in order. */
  lemma ActiveIdsExact(evidence: seq<string>, cs: seq<Contradiction>, id: string)
    ensures id in ActiveIds(evidence, cs) <==>
            exists c :: c in cs && c.id == id && !c.suppressed && (c.ruleA in evidence || c.ruleB in evidence)
    ensures NoDup(ActiveIds(evidence, cs)) && Sorted(ActiveIds(evidence, cs), StrLe)
  {
    TouchingIdsExact(evidence, cs, id);
    SortKeepsElements(TouchingIds(evidence, cs), StrLe);
    StrLeOrder();
    StableSortCorrect(TouchingIds(evidence, cs), StrLe);
  }

  method FindActive(evidence: seq<string>, cs: seq<Contradiction>) returns (ids: seq<string>)
    ensures ids == ActiveIds(evidence, cs)
  {
    ids := [];
    for i := 0 to |cs|
      invariant ids == TouchingIds(evidence, cs[..i])
    {
      assert cs[..i + 1][..i] == cs[..i];
      if Touches(cs[i], evidence) && cs[i].id !in ids { ids := ids + [cs[i].id]; }
    }
    assert cs[..|cs|] == cs;
    ids := StableSort(ids, StrLe);
  }

  // ----- Classification

  function CategoryOf(confidence: real, contradicted: bool, config: SynthesisConfig): Category {
    if confidence < config.deferThreshold then Defer
    else if contradicted then (if confidence >= config.challengeThreshold then Challenge else Resolve)
    else if confidence >= config.affirmThreshold then Affirm
    else Monitor
  }

  /** Each category by its thresholds. */
  lemma CategoryExact(confidence: real, contradicted: bool, config: SynthesisConfig)
    ensures var c := CategoryOf(confidence, contradicted, config);
            && (c == Defer <==> confidence < config.deferThreshold)
            && (c == Challenge <==> contradicted && confidence >= config.deferThreshold && confidence >= config.challengeThreshold)
            && (c == Resolve <==> contradicted && config.deferThreshold <= confidence < config.challengeThreshold)
            && (c == Affirm <==> !contradicted && confidence >= config.deferThreshold && confidence >= config.affirmThreshold)
            && (c == Monitor <==> !contradicted && config.deferThreshold <= confidence < config.affirmThreshold)
  {
  }

  /** The default thresholds in numbers. */
  lemma DefaultThresholds(confidence: real, impact: real)
    ensures var calm, torn := CategoryOf(confidence, false, DefaultSynthesis), CategoryOf(confidence, true, DefaultSynthesis);
            && calm == (if confidence < 0.4 then Defer else if confidence < 0.8 then Monitor else Affirm)
            && torn == (if confidence < 0.4 then Defer else if confidence < 0.5 then Resolve else Challenge)
    ensures var urgency := impact * confidence;
            PriorityOf(impact, confidence, DefaultSynthesis) ==
            if urgency < 0.24 then Low else if urgency < 0.48 then Normal else if urgency < 0.72 then High else Critical
  {
  }

  /** The reasons that hold of a belief, independently of how they are collected. */
  ghost predicate Holds(why: Why, v: View, contradicted: bool, config: SynthesisConfig) {
    match why
    case ActiveContradiction => contradicted
    case Stale => v.assessment.stalenessPenalty > 0.1
    case DependencyDegraded => v.assessment.propagatedAdjustment < -0.05
    case HighCorroboration => v.assessment.corroborationScore >= 0.15
    case LowConfidence => v.confidence < config.deferThreshold
    case HighConfidence => !contradicted && v.confidence >= config.deferThreshold && v.confidence >= config.affirmThreshold
    case ModerateConfidence => !contradicted && config.deferThreshold <= v.confidence < config.affirmThreshold
  }

  function ReasonRank(why: Why): nat {
    match why
    case ActiveContradiction => 0
    case Stale => 1
    case DependencyDegraded => 2
    case HighCorroboration => 3
    case LowConfidence => 4
    case HighConfidence => 5
    case ModerateConfidence => 6
  }

  predicate ReasonLeq(a: Why, b: Why) { ReasonRank(a) <= ReasonRank(b) }

  /** The reasons are exactly those that hold, each once, conditions before the confidence level. */
  ghost predicate ReasonsExact(reasons: seq<Why>, v: View, contradicted: bool, config: SynthesisConfig) {
    && NoDup(reasons) && Sorted(reasons, ReasonLeq)
    && forall why :: why in reasons <==> Holds(why, v, contradicted, config)
  }

  /** Each reason by the numbers that it stands for. */
  lemma ReasonsMeaning(reasons: seq<Why>, v: View, contradicted: bool, config: SynthesisConfig)
    requires ReasonsExact(reasons, v, contradicted, config)
    ensures ActiveContradiction in reasons <==> contradicted
    ensures Stale in reasons <==> v.assessment.stalenessPenalty > 0.1
    ensures DependencyDegraded in reasons <==> v.assessment.propagatedAdjustment < -0.05
    ensures HighCorroboration in reasons <==> v.assessment.corroborationScore >= 0.15
    ensures LowConfidence in reasons <==> CategoryOf(v.confidence, contradicted, config) == Defer
    ensures HighConfidence in reasons <==> CategoryOf(v.confidence, contradicted, config) == Affirm
    ensures ModerateConfidence in reasons <==> CategoryOf(v.confidence, contradicted, config) == Monitor
    ensures forall i, j | 0 <= i < j < |reasons| && reasons[i] in {LowConfidence, HighConfidence, ModerateConfidence} ::
              reasons[j] in {LowConfidence, HighConfidence, ModerateConfidence}
  {
  }

  /** There is only one such list. */
  lemma ReasonsUnique(a: seq<Why>, b: seq<Why>, v: View, contradicted: bool, config: SynthesisConfig)
    requires ReasonsExact(a, v, contradicted, config) && ReasonsExact(b, v, contradicted, config)
    ensures a == b
  {
    SetMultiset(a, b);
    SortedUnique(a, b, ReasonLeq);
  }

  /** The reasons of the first `k` kinds have been collected. */
  ghost predicate Collected(reasons: seq<Why>, k: nat, v: View, contradicted: bool, config: SynthesisConfig) {
    && NoDup(reasons) && Sorted(reasons, ReasonLeq)
    && forall why :: why in reasons <==> ReasonRank(why) < k && Holds(why, v, contradicted, config)
  }

  function AppendIf(reasons: seq<Why>, holds: bool, why: Why): seq<Why> {
    if holds then reasons + [why] else reasons
  }

  lemma CollectNext(reasons: seq<Why>, why: Why, v: View, contradicted: bool, config: SynthesisConfig)
    requires Collected(reasons, ReasonRank(why), v, contradicted, config)
    ensures Collected(AppendIf(reasons, Holds(why, v, contradicted, config), why), ReasonRank(why) + 1, v, contradicted, config)
  {
    var after := AppendIf(reasons, Holds(why, v, contradicted, config), why);
    assert why !in reasons;
    forall other ensures other in after <==> ReasonRank(other) < ReasonRank(why) + 1 && Holds(other, v, contradicted, config) {
      assert ReasonRank(other) == ReasonRank(why) ==> other == why;
    }
  }

  method Classify(v: View, contradicted: bool, config: SynthesisConfig) returns (category: Category, reasons: seq<Why>)
    ensures category == CategoryOf(v.confidence, contradicted, config)
    ensures ReasonsExact(reasons, v, contradicted, config)
  {
    reasons := CollectConditions(v, contradicted, config);
    CollectNext(reasons, LowConfidence, v, contradicted, config);
    if v.confidence < config.deferThreshold {
      reasons := reasons + [LowConfidence];
      return Defer, reasons;
    }
    CollectNext(reasons, HighConfidence, v, contradicted, config);
    if contradicted {
      return if v.confidence >= config.challengeThreshold then Challenge else Resolve, reasons;
    }
    if v.confidence >= config.affirmThreshold {
      reasons := reasons + [HighConfidence];
      return Affirm, reasons;
    }
    CollectNext(reasons, ModerateConfidence, v, contradicted, config);
    reasons := reasons + [ModerateConfidence];
    return Monitor, reasons;
  }

  /** The part of `_classify` before the category is chosen. */
  method CollectConditions(v: View, contradicted: bool, config: SynthesisConfig) returns (reasons: seq<Why>)
    ensures Collected(reasons, 4, v, contradicted, config)
  {
    reasons := [];
    CollectNext(reasons, ActiveContradiction, v, contradicted, config);
    if contradicted { reasons := reasons + [ActiveContradiction]; }
    CollectNext(reasons, Stale, v, contradicted, config);
    if v.assessment.stalenessPenalty > 0.1 { reasons := reasons + [Stale]; }
    CollectNext(reasons, DependencyDegraded, v, contradicted, config);
    if v.assessment.propagatedAdjustment < -0.05 { reasons := reasons + [DependencyDegraded]; }
    CollectNext(reasons, HighCorroboration, v, contradicted, config);
    if v.assessment.corroborationScore >= 0.15 { reasons := reasons + [HighCorroboration]; }
  }

  // ----- Candidates and items

  /** The item of a belief, its reasons given by what they must be. */
  ghost predicate Represents(item: Item, v: View, cs: seq<Contradiction>, config: SynthesisConfig)
    requires config.breadthDivisor != 0.0
  {
    var c := item.candidate;
    var ids := ActiveIds(v.supportingEvidence, cs);
    && c.category == CategoryOf(v.confidence, ids != [], config)
    && ReasonsExact(c.reasons, v, ids != [], config)
    && c.impact == Impact(v, config) && c.priority == PriorityOf(c.impact, v.confidence, config)
    && c.confidence == v.confidence && c.contradictionIds == ids
    && c.beliefId == v.beliefId && c.title == v.title && c.content == v.content
    && c.candidateId == CandidateId(v.beliefId, c.category, config.version)
    && item.synthesisId == SynthesisId(c.candidateId, config.version)
  }

  lemma RepresentsUnique(a: Item, b: Item, v: View, cs: seq<Contradiction>, config: SynthesisConfig)
    requires config.breadthDivisor != 0.0 && Represents(a, v, cs, config) && Represents(b, v, cs, config)
    ensures a == b
  {
    ReasonsUnique(a.candidate.reasons, b.candidate.reasons, v, ActiveIds(v.supportingEvidence, cs) != [], config);
  }

  method Generate(v: View, cs: seq<Contradiction>, config: SynthesisConfig) returns (item: Item)
    requires config.breadthDivisor != 0.0
    ensures Represents(item, v, cs, config)
  {
    var ids := FindActive(v.supportingEvidence, cs);
    var category, reasons := Classify(v, ids != [], config);
    var impact := Impact(v, config);
    var candidateId := CandidateId(v.beliefId, category, config.version);
    item := Item(SynthesisId(candidateId, config.version),
                 Candidate(candidateId, v.beliefId, category, reasons, v.confidence, impact,
                           PriorityOf(impact, v.confidence, config), ids, v.title, v.content));
  }

  // ----- Ranking

  function Level(p: Urgency): nat {
    match p
    case Critical => 0
    case High => 1
    case Normal => 2
    case Low => 3
  }

  /** Priority first, then the higher confidence. */
  predicate ItemLeq(a: Item, b: Item) {
    var p, q := Level(a.candidate.priority), Level(b.candidate.priority);
    p < q || (p == q && a.candidate.confidence >= b.candidate.confidence)
  }

  lemma ItemOrder()
    ensures TotalPreorder(ItemLeq)
  {
  }

  /** `a` may stand before `b`: critical, high, normal, low, and of one priority the more confident first. */
  predicate MayStandBefore(a: Candidate, b: Candidate) {
    && (b.priority == Critical ==> a.priority == Critical)
    && (b.priority == High ==> a.priority == Critical || a.priority == High)
    && (a.priority == Low ==> b.priority == Low)
    && (a.priority == b.priority ==> a.confidence >= b.confidence)
  }

  function AtRank(p: Urgency, confidence: real): Item -> bool {
    (i: Item) => i.candidate.priority == p && i.candidate.confidence == confidence
  }

  /** The items in order, those with the same priority and confidence as they came. */
  ghost predicate Ranked(items: seq<Item>, unsorted: seq<Item>) {
    && (forall i, j | 0 <= i < j < |items| :: MayStandBefore(items[i].candidate, items[j].candidate))
    && (forall p, confidence :: Filter(AtRank(p, confidence), items) == Filter(AtRank(p, confidence), unsorted))
    && multiset(items) == multiset(unsorted)
  }

  lemma {:induction false} BandAtRank(g: Item, items: seq<Item>)
    ensures Band(g, items, ItemLeq) == Filter(AtRank(g.candidate.priority, g.candidate.confidence), items)
  {
    if items != [] {
      BandAtRank(g, items[1..]);
      assert ItemLeq(g, items[0]) && ItemLeq(items[0], g) <==> AtRank(g.candidate.priority, g.candidate.confidence)(items[0]);
    }
  }

  function ItemAt(p: Urgency, confidence: real): Item {
    var id := CandidateId("", Defer, "");
    Item(SynthesisId(id, ""), Candidate(id, "", Defer, [], confidence, 0.0, p, [], "", ""))
  }

  /** The sort ranks the items in that sense. */
  lemma SortRanksItems(unsorted: seq<Item>)
    ensures Ranked(StableSort(unsorted, ItemLeq), unsorted)
  {
    var items := StableSort(unsorted, ItemLeq);
    ItemOrder();
    StableSortCorrect(unsorted, ItemLeq);
    forall i, j | 0 <= i < j < |items| ensures MayStandBefore(items[i].candidate, items[j].candidate) {
      assert ItemLeq(items[i], items[j]);
    }
    forall p, confidence ensures Filter(AtRank(p, confidence), items) == Filter(AtRank(p, confidence), unsorted) {
      BandAtRank(ItemAt(p, confidence), items);
      BandAtRank(ItemAt(p, confidence), unsorted);
    }
  }

  function CountIf(p: Item -> bool, items: seq<Item>): nat {
    if items == [] then 0
    else
      var n := |items| - 1;
      CountIf(p, items[..n]) + if p(items[n]) then 1 else 0
  }

  function InCategory(c: Category): Item -> bool { (i: Item) => i.candidate.category == c }
  function InPriority(p: Urgency): Item -> bool { (i: Item) => i.candidate.priority == p }

  /** The counts of the summary add up to the number of items. */
  lemma {:induction false} CountsAddUp(items: seq<Item>)
    ensures CountIf(InCategory(Affirm), items) + CountIf(InCategory(Challenge), items) + CountIf(InCategory(Resolve), items)
            + CountIf(InCategory(Defer), items) + CountIf(InCategory(Monitor), items) == |items|
    ensures CountIf(InPriority(Critical), items) + CountIf(InPriority(High), items)
            + CountIf(InPriority(Normal), items) + CountIf(InPriority(Low), items) == |items|
  {
    if items != [] {
      CountsAddUp(items[..|items| - 1]);
    }
  }

  ghost predicate Counted(items: seq<Item>, byCategory: map<Category, nat>, byPriority: map<Urgency, nat>) {
    && (forall c: Category :: c in byCategory && byCategory[c] == CountIf(InCategory(c), items))
    && (forall p: Urgency :: p in byPriority && byPriority[p] == CountIf(InPriority(p), items))
  }

  method CountItems(items: seq<Item>) returns (byCategory: map<Category, nat>, byPriority: map<Urgency, nat>)
    ensures Counted(items, byCategory, byPriority)
  {
    byCategory := map[Affirm := 0, Challenge := 0, Resolve := 0, Defer := 0, Monitor := 0];
    byPriority := map[Critical := 0, High := 0, Normal := 0, Low := 0];
    forall c: Category ensures c in byCategory && byCategory[c] == 0 {
      assert c.Affirm? || c.Challenge? || c.Resolve? || c.Defer? || c.Monitor?;
    }
    forall p: Urgency ensures p in byPriority && byPriority[p] == 0 {
      assert p.Critical? || p.High? || p.Normal? || p.Low?;
    }
    for i := 0 to |items|
      invariant Counted(items[..i], byCategory, byPriority)
    {
      assert items[..i + 1][..i] == items[..i];
      var c, p := items[i].candidate.category, items[i].candidate.priority;
      byCategory := byCategory[c := byCategory[c] + 1];
      byPriority := byPriority[p := byPriority[p] + 1];
    }
    assert items[..|items|] == items;
  }

  /** Item by item, the list represents the beliefs. */
  ghost predicate RepresentAll(items: seq<Item>, views: seq<View>, cs: seq<Contradiction>, config: SynthesisConfig)
    requires config.breadthDivisor != 0.0
  {
    |items| == |views| && forall i | 0 <= i < |items| :: Represents(items[i], views[i], cs, config)
  }

  lemma {:induction false} ViewsLength(beliefs: seq<Belief>)
    ensures |Views(beliefs)| == |beliefs|
  {
    if beliefs != [] {
      ViewsLength(beliefs[..|beliefs| - 1]);
    }
  }

  lemma {:induction false} ViewAt(beliefs: seq<Belief>, i: nat)
    requires i < |beliefs|
    ensures |Views(beliefs)| == |beliefs| && Views(beliefs)[i] == ViewOf(beliefs[i])
  {
    var n := |beliefs| - 1;
    if n > 0 {
      ViewAt(beliefs[..n], if i < n then i else 0);
    }
  }

  /** Each item is about the belief at its place, with the belief's final confidence. */
  ghost predicate AboutBeliefs(items: seq<Item>, beliefs: seq<Belief>)
    reads beliefs
  {
    |items| == |beliefs| && forall i | 0 <= i < |items| ::
      && items[i].candidate.confidence == beliefs[i].finalConfidence && items[i].candidate.beliefId == beliefs[i].beliefId
      && items[i].candidate.title == beliefs[i].title && items[i].candidate.content == beliefs[i].content
  }

  lemma RepresentIsAbout(items: seq<Item>, beliefs: seq<Belief>, cs: seq<Contradiction>, config: SynthesisConfig)
    requires config.breadthDivisor != 0.0 && RepresentAll(items, Views(beliefs), cs, config)
    ensures AboutBeliefs(items, beliefs)
  {
    ViewsLength(beliefs);
    forall i | 0 <= i < |items|
      ensures items[i].candidate.confidence == beliefs[i].finalConfidence && items[i].candidate.beliefId == beliefs[i].beliefId
      ensures items[i].candidate.title == beliefs[i].title && items[i].candidate.content == beliefs[i].content
    {
      ViewAt(beliefs, i);
      assert Represents(items[i], Views(beliefs)[i], cs, config);
    }
  }

  /** The loop over the beliefs. */
  method GenerateAll(beliefs: seq<Belief>, cs: seq<Contradiction>, config: SynthesisConfig) returns (items: seq<Item>)
    requires config.breadthDivisor != 0.0
    ensures RepresentAll(items, Views(beliefs), cs, config)
  {
    items := [];
    ghost var views := Views(beliefs);
    ViewsLength(beliefs);
    for i := 0 to |beliefs|
      invariant |items| == i
      invariant forall j | 0 <= j < i :: Represents(items[j], views[j], cs, config)
    {
      ViewAt(beliefs, i);
      var item := Generate(ViewOf(beliefs[i]), cs, config);
      items := items + [item];
    }
  }

  /**
   `synthesize`: the items of the beliefs, the most urgent first, then the most confident, then as
   the beliefs came; with counts of the items.
   */
  method Synthesize(beliefs: seq<Belief>, cs: seq<Contradiction>, config: SynthesisConfig)
    returns (report: Report, ghost unsorted: seq<Item>)
    requires config.breadthDivisor != 0.0
    ensures RepresentAll(unsorted, Views(beliefs), cs, config) && AboutBeliefs(unsorted, beliefs)
    ensures report.items == StableSort(unsorted, ItemLeq) && Ranked(report.items, unsorted)
    ensures Counted(report.items, report.byCategory, report.byPriority)
    ensures report.total == |report.items| && report.version == config.version
  {
    var items := GenerateAll(beliefs, cs, config);
    unsorted := items;
    SortRanksItems(items);
    RepresentIsAbout(items, beliefs, cs, config);
    items := StableSort(items, ItemLeq);
    var byCategory, byPriority := CountItems(items);
    report := Report(items, |items|, byCategory, byPriority, config.version);
  }

  // ----- The bound under the default configuration

  /** The scores of an assessment are within their caps. */
  lemma ScoresBounded(b: Bundle, config: ReasoningConfig)
    ensures var a := Assess(b, config);
            0.0 <= a.agreementScore <= 0.2 && 0.0 <= a.corroborationScore <= 0.2 && 0.0 <= a.localConfidence <= 1.0
  {
  }

  /** With capped scores the default weights allow no impact above 0.44. */
  lemma ImpactBounded(v: View)
    requires 0.0 <= v.assessment.agreementScore <= 0.2 && 0.0 <= v.assessment.corroborationScore <= 0.2
    ensures 0.0 <= Impact(v, DefaultSynthesis) <= 0.44
  {
    var breadth := Min(1.0, |v.supportingEvidence| as real / 5.0);
    var impact := v.assessment.corroborationScore * 0.50 + breadth * 0.30 + v.assessment.agreementScore * 0.20;
    assert 0.0 <= impact <= 0.44;
    assert Impact(v, DefaultSynthesis) == Round4(impact);
    RoundWithin(impact, 0, 4400);
  }

  /** So the urgency stays below the threshold for a high priority. */
  lemma NeverUrgent(v: View)
    requires 0.0 <= v.assessment.agreementScore <= 0.2 && 0.0 <= v.assessment.corroborationScore <= 0.2
    requires 0.0 <= v.confidence <= 1.0
    ensures var p := PriorityOf(Impact(v, DefaultSynthesis), v.confidence, DefaultSynthesis); p == Normal || p == Low
  {
    ImpactBounded(v);
    SmallImpactIsCalm(Impact(v, DefaultSynthesis), v.confidence);
  }

  lemma SmallImpactIsCalm(impact: real, confidence: real)
    requires 0.0 <= impact <= 0.44 && 0.0 <= confidence <= 1.0
    ensures var p := PriorityOf(impact, confidence, DefaultSynthesis); p == Normal || p == Low
  {
    Product(confidence, impact);
    assert impact * confidence == confidence * impact <= 0.44;
  }

  /** The bound is reached, with both scores at their caps and five pieces of evidence. */
  lemma BoundReached(v: View)
    requires v.assessment.agreementScore == 0.2 && v.assessment.corroborationScore == 0.2
    requires |v.supportingEvidence| >= 5 && v.confidence == 1.0
    ensures Impact(v, DefaultSynthesis) == 0.44
    ensures PriorityOf(Impact(v, DefaultSynthesis), v.confidence, DefaultSynthesis) == Normal
  {
    var breadth := Min(1.0, |v.supportingEvidence| as real / 5.0);
    assert |v.supportingEvidence| as real / 5.0 >= 1.0;
    assert breadth == 1.0;
    RoundWithin(0.44, 4400, 4400);
  }
}
