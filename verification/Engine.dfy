/** The reasoning pipeline, from the states of the projects' knowledge to decisions. */
module Engine {
  import opened Wrappers
  import opened Orders
  import opened OrderedMaps
  import opened SupportGraph
  import opened Propagation
  import opened PropagationLaws
  import opened ConceptMaps
  import opened BeliefOrder
  import opened Beliefs
  import opened Aggregation
  import opened Synthesis
  import opened DecisionGate
  import Contradictions

  /** The belief assessed from a bundle, with whatever propagation may have done to it. */
  ghost predicate AssessedFrom(b: Belief, bundle: Bundle, config: ReasoningConfig)
    reads b
  {
    && b.title == bundle.title && b.content == bundle.content && b.supportingEvidence == bundle.supportingEvidence
    && b.localConfidence == Assess(bundle, config).localConfidence
    && b.assessment == Assess(bundle, config).(propagatedAdjustment := b.propagatedAdjustment, finalConfidence := b.finalConfidence)
    && b.propagatedAdjustment <= 0.0
    && 0.0 <= b.finalConfidence <= b.localConfidence <= 1.0
  }

  /** As `AssessedFrom`, before any propagation. */
  ghost predicate FreshlyAssessed(b: Belief, bundle: Bundle, config: ReasoningConfig)
    reads b
  {
    AssessedFrom(b, bundle, config) && b.propagatedAdjustment == 0.0 && b.finalConfidence == b.localConfidence
  }

  /** The text whose digest is the id of the belief, without its fixed beginning. */
  function BeliefIdOf(bundle: Bundle, norm: TitleNormaliser): string {
    norm(bundle.title) + ":" + norm(bundle.content)
  }

  /** What propagation is given of a bundle's belief. */
  function HeldFrom(bundle: Bundle, norm: TitleNormaliser, config: ReasoningConfig): Held {
    var local := Assess(bundle, config).localConfidence;
    Held(BeliefIdOf(bundle, norm), Num(local, 0.0, local))
  }

  function HeldFromAll(bundles: seq<Bundle>, norm: TitleNormaliser, config: ReasoningConfig): (r: seq<Held>)
    ensures |r| == |bundles| && forall i | 0 <= i < |r| :: r[i] == HeldFrom(bundles[i], norm, config)
  {
    if bundles == [] then []
    else
      var n := |bundles| - 1;
      HeldFromAll(bundles[..n], norm, config) + [HeldFrom(bundles[n], norm, config)]
  }

  /** `concept_id_to_belief_id` */
  function IdsOf(bundles: seq<Bundle>, norm: TitleNormaliser): OMap<string> {
    if bundles == [] then Empty()
    else
      var n := |bundles| - 1;
      Set(IdsOf(bundles[..n], norm), bundles[n].conceptId, BeliefIdOf(bundles[n], norm))
  }

  /** The assessed belief of one bundle. */
  method ConstructBelief(bundle: Bundle, norm: TitleNormaliser, config: ReasoningConfig) returns (b: Belief)
    ensures fresh(b) && FreshlyAssessed(b, bundle, config) && b.beliefId == BeliefIdOf(bundle, norm)
  {
    ScoresBounded(bundle, config);
    b := new Belief(norm(bundle.title) + ":" + norm(bundle.content), bundle.title, bundle.content,
                    Assess(bundle, config), bundle.supportingEvidence);
  }

  /** The loop that assesses the bundles. */
  method ConstructBeliefs(bundles: seq<Bundle>, norm: TitleNormaliser, config: ReasoningConfig)
    returns (beliefs: seq<Belief>, ids: OMap<string>)
    ensures fresh(beliefs) && NoDup(beliefs) && |beliefs| == |bundles| && Consistent(ids) && ids == IdsOf(bundles, norm)
    ensures forall i | 0 <= i < |bundles| :: FreshlyAssessed(beliefs[i], bundles[i], config) && beliefs[i].beliefId == BeliefIdOf(bundles[i], norm)
  {
    beliefs, ids := [], Empty();
    for i := 0 to |bundles|
      invariant fresh(beliefs) && NoDup(beliefs) && |beliefs| == i && Consistent(ids) && ids == IdsOf(bundles[..i], norm)
      invariant forall j | 0 <= j < i :: FreshlyAssessed(beliefs[j], bundles[j], config) && beliefs[j].beliefId == BeliefIdOf(bundles[j], norm)
    {
      assert bundles[..i + 1][..i] == bundles[..i];
      var bundle := bundles[i];
      var b := ConstructBelief(bundle, norm, config);
      beliefs := beliefs + [b];
      SetConsistent(ids, bundle.conceptId, b.beliefId);
      ids := Set(ids, bundle.conceptId, b.beliefId);
    }
    assert bundles[..|bundles|] == bundles;
  }

  lemma FreshAreHeld(beliefs: seq<Belief>, bundles: seq<Bundle>, norm: TitleNormaliser, config: ReasoningConfig)
    requires |beliefs| == |bundles|
    requires forall i | 0 <= i < |bundles| :: FreshlyAssessed(beliefs[i], bundles[i], config) && beliefs[i].beliefId == BeliefIdOf(bundles[i], norm)
    ensures HeldOf(beliefs) == HeldFromAll(bundles, norm, config)
  {
    forall i | 0 <= i < |beliefs| ensures HeldOf(beliefs)[i] == HeldFromAll(bundles, norm, config)[i] { HeldAt(beliefs, i); }
  }

  /** A belief whose assessment is that of its bundle but for the numbers that propagation lowers. */
  lemma StillStands(b: Belief, bundle: Bundle, config: ReasoningConfig, was: Assessment, start: Num)
    requires b.title == bundle.title && b.content == bundle.content && b.supportingEvidence == bundle.supportingEvidence
    requires was == Assess(bundle, config) && start == Num(was.localConfidence, 0.0, was.localConfidence)
    requires Reassessed(b, was, start) && b.localConfidence == was.localConfidence
    requires b.propagatedAdjustment <= 0.0 && 0.0 <= b.finalConfidence <= b.localConfidence
    ensures AssessedFrom(b, bundle, config)
  {
    ScoresBounded(bundle, config);
  }

  /** The confidence has at most been lowered, and not below 0. */
  predicate Lowered(b: Belief)
    reads b
  {
    b.propagatedAdjustment <= 0.0 && 0.0 <= b.finalConfidence <= b.localConfidence
  }

  lemma StartIsAssessed(xs: seq<Held>, ids: OMap<string>)
    requires forall i | 0 <= i < |xs| :: xs[i].num.adjustment == 0.0 && 0.0 <= xs[i].num.final == xs[i].num.local <= 1.0
    ensures Assessed(StartNums(xs, ids))
  {
    forall c | c in StartNums(xs, ids)
      ensures var n := StartNums(xs, ids)[c]; 0.0 <= n.local <= 1.0 && n.adjustment == 0.0 && n.final == n.local
    {
      MappedExact(xs, HeldId, ids, c);
    }
  }

  /** Only the numbers of beliefs that stand for a concept can have been lowered. */
  lemma PropagatedBounded(xs: seq<Held>, ids: OMap<string>, support: map<string, seq<string>>, attenuation: real, after: seq<Num>, i: nat)
    requires forall k | 0 <= k < |xs| :: xs[k].num.adjustment == 0.0 && 0.0 <= xs[k].num.final == xs[k].num.local <= 1.0
    requires Propagated(xs, ids, support, attenuation, after) && i < |xs| && LastOfId(xs, HeldId, i)
    ensures after[i].adjustment <= 0.0 && 0.0 <= after[i].final <= after[i].local
  {
    var g := Restrict(ids.keys, support);
    if Acyclic(g) {
      var s: Nums :| Solves(g, StartNums(xs, ids), s, attenuation)
                     && forall k | 0 <= k < |xs| && LastOfId(xs, HeldId, k) :: HoldsSolved(xs[k], ids, s, after[k]);
      StartIsAssessed(xs, ids);
      Bounded(g, StartNums(xs, ids), s, attenuation);
      assert HoldsSolved(xs[i], ids, s, after[i]);
    }
  }

  lemma StillLowered(xs: seq<Held>, beliefs: seq<Belief>, ids: OMap<string>, support: map<string, seq<string>>, attenuation: real, k: nat)
    requires |xs| == |beliefs| && forall i | 0 <= i < |xs| :: xs[i].beliefId == beliefs[i].beliefId
    requires forall i | 0 <= i < |xs| :: xs[i].num.adjustment == 0.0 && 0.0 <= xs[i].num.final == xs[i].num.local <= 1.0
    requires Propagated(xs, ids, support, attenuation, NumbersOf(beliefs))
    requires k < |xs| && (beliefs[k] !in BeliefMap(beliefs, ids).Values ==> beliefs[k].Numbers() == xs[k].num)
    ensures Lowered(beliefs[k])
  {
    var m := BeliefMap(beliefs, ids);
    if beliefs[k] in m.Values {
      var c :| c in m && m[c] == beliefs[k];
      MappedExact(beliefs, IdOf, ids, c);
      var i: nat :| StandsFor(beliefs, IdOf, ids, c, i) && beliefs[i] == beliefs[k];
      assert LastOfId(xs, HeldId, i);
      PropagatedBounded(xs, ids, support, attenuation, NumbersOf(beliefs), i);
    }
  }

  /** Propagation only lowers confidences, with or without a cycle in the support graph. */
  method PropagateBounded(beliefs: seq<Belief>, ids: OMap<string>, support: OMap<seq<string>>, attenuation: real)
    requires Consistent(ids) && Consistent(support)
    requires forall b | b in beliefs ::
               b.propagatedAdjustment == 0.0 && 0.0 <= b.finalConfidence == b.localConfidence <= 1.0
    modifies beliefs
    ensures Propagated(old(HeldOf(beliefs)), ids, support.at, attenuation, NumbersOf(beliefs))
    ensures NoDup(beliefs) ==> Settled(old(HeldOf(beliefs)), ids, support.at, attenuation, NumbersOf(beliefs))
    ensures forall b | b in beliefs :: Lowered(b) && Reassessed(b, old(b.assessment), old(b.Numbers()))
  {
    ghost var xs := HeldOf(beliefs);
    HeldAll(xs, beliefs);
    PropagateBeliefs(beliefs, ids, support, attenuation);
    forall k | 0 <= k < |beliefs| ensures Lowered(beliefs[k]) {
      assert beliefs[k] !in BeliefMap(beliefs, ids).Values ==> Fields(beliefs[k]) == old(Fields(beliefs[k]));
      StillLowered(xs, beliefs, ids, support.at, attenuation, k);
    }
  }

  /** Propagation over freshly assessed beliefs. */
  method PropagateAssessed(beliefs: seq<Belief>, ids: OMap<string>, support: OMap<seq<string>>, config: ReasoningConfig, ghost bundles: seq<Bundle>)
    requires Consistent(ids) && Consistent(support) && NoDup(beliefs) && |beliefs| == |bundles|
    requires forall i | 0 <= i < |bundles| :: FreshlyAssessed(beliefs[i], bundles[i], config)
    modifies beliefs
    ensures Settled(old(HeldOf(beliefs)), ids, support.at, config.attenuation, NumbersOf(beliefs))
    ensures forall i | 0 <= i < |bundles| :: AssessedFrom(beliefs[i], bundles[i], config)
  {
    PropagateBounded(beliefs, ids, support, config.attenuation);
    forall i | 0 <= i < |bundles| ensures AssessedFrom(beliefs[i], bundles[i], config) {
      assert old(FreshlyAssessed(beliefs[i], bundles[i], config));
      var a := Assess(bundles[i], config);
      StillStands(beliefs[i], bundles[i], config, a, Num(a.localConfidence, 0.0, a.localConfidence));
    }
  }

  // ----- Contradictions among the knowledge behind the bundles

  /** The first record of each id. */
  function FirstRecords(records: seq<Contradictions.Record>): seq<Contradictions.Record> {
    if records == [] then []
    else
      var n := |records| - 1;
      var before := FirstRecords(records[..n]);
      if exists r | r in before :: r.id == records[n].id then before else before + [records[n]]
  }

  /** A content in lower case and stripped, and its lines. */
  type Reader = string -> (string, seq<string>)

  function RecordOf(read: Reader): Knowledge -> Contradictions.Record {
    (k: Knowledge) => Contradictions.Record(k.id, k.title, k.content, read(k.content).0, read(k.content).1)
  }

  /** The records of all active knowledge, by project, the first of each id. */
  function RecordsOf(states: seq<KnowledgeState>, read: Reader): seq<Contradictions.Record> {
    FirstRecords(Apply(RecordOf(read), ActiveOf(InOrder(states))))
  }

  ghost predicate SeenIn(seen: set<string>, r: seq<Contradictions.Record>) {
    forall k :: k in seen <==> exists x | x in r :: x.id == k
  }

  lemma FirstRecordsMore(records: seq<Contradictions.Record>, x: Contradictions.Record, seen: set<string>)
    requires SeenIn(seen, FirstRecords(records))
    ensures var r := FirstRecords(records);
            FirstRecords(records + [x]) == (if x.id in seen then r else r + [x]) && SeenIn(seen + {x.id}, FirstRecords(records + [x]))
  {
    var r := FirstRecords(records);
    assert (records + [x])[..|records|] == records;
    assert forall y | y in r :: y in r + [x];
    assert x in r + [x];
  }

  lemma CollectedMore(before: seq<Contradictions.Record>, active: seq<Knowledge>, read: Reader, j: nat, seen: set<string>)
    requires j < |active| && SeenIn(seen, FirstRecords(before + Apply(RecordOf(read), active[..j])))
    ensures var r := FirstRecords(before + Apply(RecordOf(read), active[..j]));
            && FirstRecords(before + Apply(RecordOf(read), active[..j + 1])) == (if active[j].id in seen then r else r + [RecordOf(read)(active[j])])
            && SeenIn(seen + {active[j].id}, FirstRecords(before + Apply(RecordOf(read), active[..j + 1])))
  {
    assert active[..j + 1][..j] == active[..j];
    FirstRecordsMore(before + Apply(RecordOf(read), active[..j]), RecordOf(read)(active[j]), seen);
    assert before + Apply(RecordOf(read), active[..j + 1]) == before + Apply(RecordOf(read), active[..j]) + [RecordOf(read)(active[j])];
  }

  /** The inner loop, over the active knowledge of one state. */
  method CollectState(active: seq<Knowledge>, read: Reader, ghost before: seq<Contradictions.Record>, collected: seq<Contradictions.Record>, known: set<string>)
    returns (r: seq<Contradictions.Record>, seen: set<string>)
    requires collected == FirstRecords(before) && SeenIn(known, collected)
    ensures r == FirstRecords(before + Apply(RecordOf(read), active)) && SeenIn(seen, r)
  {
    r, seen := collected, known;
    assert before + Apply(RecordOf(read), active[..0]) == before;
    for j := 0 to |active|
      invariant r == FirstRecords(before + Apply(RecordOf(read), active[..j])) && SeenIn(seen, r)
    {
      CollectedMore(before, active, read, j, seen);
      var k := active[j];
      if k.id !in seen {
        r := r + [Contradictions.Record(k.id, k.title, k.content, read(k.content).0, read(k.content).1)];
        seen := seen + {k.id};
      } else {
        assert seen + {k.id} == seen;
      }
    }
    assert active[..|active|] == active;
  }

  /** The loops over the active knowledge of all states, which skip ids they have seen. */
  method CollectRecords(states: seq<KnowledgeState>, read: Reader) returns (r: seq<Contradictions.Record>)
    ensures r == RecordsOf(states, read)
  {
    var sorted := StableSort(states, ProjectLeq);
    r := [];
    var seen: set<string> := {};
    for i := 0 to |sorted|
      invariant r == FirstRecords(Apply(RecordOf(read), ActiveOf(sorted[..i]))) && SeenIn(seen, r)
    {
      assert sorted[..i + 1][..i] == sorted[..i];
      ApplyAppend(RecordOf(read), ActiveOf(sorted[..i]), sorted[i].active);
      r, seen := CollectState(sorted[i].active, read, Apply(RecordOf(read), ActiveOf(sorted[..i])), r, seen);
    }
    assert sorted[..|sorted|] == sorted;
  }

  /** Findings as the synthesis sees them; `name` renders a finding id. */
  function RenderAll(fs: seq<Contradictions.Finding>, name: Contradictions.FindingId -> string): seq<Contradiction> {
    if fs == [] then []
    else
      var n := |fs| - 1;
      RenderAll(fs[..n], name) + [Contradiction(name(fs[n].findingId), fs[n].ruleA, fs[n].ruleB, fs[n].suppressed)]
  }

  lemma {:induction false} FirstRecordsExact(records: seq<Contradictions.Record>)
    ensures var r := FirstRecords(records);
            && (forall i, j | 0 <= i < j < |r| :: r[i].id != r[j].id)
            && (forall x | x in records :: exists y | y in r :: y.id == x.id)
  {
    if records != [] {
      var n := |records| - 1;
      FirstRecordsExact(records[..n]);
      var before, r := FirstRecords(records[..n]), FirstRecords(records);
      assert before <= r && forall y | y in before :: y in r;
      assert exists y | y in r :: y.id == records[n].id by {
        if forall y | y in before :: y.id != records[n].id { assert records[n] in r; }
      }
      forall x | x in records ensures exists y | y in r :: y.id == x.id {
        if x in records[..n] {
          var y :| y in before && y.id == x.id;
          assert y in r;
        } else {
          assert x == records[n];
        }
      }
    }
  }

  /** Nothing before place `i` has its id. */
  ghost predicate FirstOfId(records: seq<Contradictions.Record>, i: nat) {
    i < |records| && forall j | 0 <= j < i :: records[j].id != records[i].id
  }

  /** The record at place `k` is the first of its id, and the records before it are those found up to there. */
  lemma {:induction false} FirstRecordsAre(records: seq<Contradictions.Record>, k: nat) returns (i: nat)
    requires k < |FirstRecords(records)|
    ensures FirstOfId(records, i) && FirstRecords(records)[k] == records[i] && FirstRecords(records)[..k] == FirstRecords(records[..i])
  {
    var n := |records| - 1;
    var before := FirstRecords(records[..n]);
    if k < |before| {
      i := FirstRecordsAre(records[..n], k);
      assert records[..n][..i] == records[..i] && FirstRecords(records)[..k] == before[..k];
    } else {
      i := n;
      FirstRecordsExact(records[..n]);
      forall j | 0 <= j < n ensures records[j].id != records[n].id { assert records[..n][j] == records[j] && records[j] in records[..n]; }
    }
  }

  /** So among the records that reason compares no id comes twice, and only pairs give findings. */
  lemma {:induction false} NoDuplicateFindings(records: seq<Contradictions.Record>, suppressed: set<Contradictions.FindingId>)
    requires forall i, j | 0 <= i < j < |records| :: records[i].id != records[j].id
    ensures Contradictions.DuplicateFindings(records, suppressed) == []
    ensures forall k :: k in Contradictions.FirstById(records) <==> exists r | r in records :: r.id == k
  {
    if records != [] {
      var n := |records| - 1;
      NoDuplicateFindings(records[..n], suppressed);
      assert records == records[..n] + [records[n]];
    }
  }

  /** The findings about the pairs of records. */
  function ContradictionsOf(states: seq<KnowledgeState>, read: Reader, suppressed: set<Contradictions.FindingId>,
                            name: Contradictions.FindingId -> string): seq<Contradiction> {
    RenderAll(Contradictions.AllPairs(Contradictions.Findings(suppressed), RecordsOf(states, read)), name)
  }

  method DetectAmong(states: seq<KnowledgeState>, read: Reader, suppressed: set<Contradictions.FindingId>, name: Contradictions.FindingId -> string)
    returns (cs: seq<Contradiction>)
    ensures cs == ContradictionsOf(states, read, suppressed, name)
  {
    var distinct := CollectRecords(states, read);
    var findings := Contradictions.Detect(distinct, suppressed);
    FirstRecordsExact(Apply(RecordOf(read), ActiveOf(InOrder(states))));
    NoDuplicateFindings(distinct, suppressed);
    assert findings == Contradictions.AllPairs(Contradictions.Findings(suppressed), RecordsOf(states, read));
    cs := RenderAll(findings, name);
  }

  // ----- The support graph of all states

  /** `setdefault(src, []).extend(targets)` */
  function Extend(support: OMap<seq<string>>, src: string, targets: seq<string>): OMap<seq<string>> {
    Set(support, src, (if src in support.at then support.at[src] else []) + targets)
  }

  function ExtendAll(support: OMap<seq<string>>, srcs: seq<string>, at: map<string, seq<string>>): OMap<seq<string>>
    requires forall u | u in srcs :: u in at
  {
    if srcs == [] then support
    else
      var n := |srcs| - 1;
      Extend(ExtendAll(support, srcs[..n], at), srcs[n], at[srcs[n]])
  }

  ghost predicate ProperStates(states: seq<KnowledgeState>) {
    forall s | s in states :: Consistent(s.support)
  }

  function MergedSupport(states: seq<KnowledgeState>): OMap<seq<string>>
    requires ProperStates(states)
  {
    if states == [] then Empty()
    else
      var n := |states| - 1;
      ExtendAll(MergedSupport(states[..n]), states[n].support.keys, states[n].support.at)
  }

  lemma ExtendExact(support: OMap<seq<string>>, src: string, targets: seq<string>)
    requires Consistent(support)
    ensures var r := Extend(support, src, targets);
            Consistent(r) && forall u, v :: Supports(r.at, u, v) <==> Supports(support.at, u, v) || (u == src && v in targets)
  {
    SetConsistent(support, src, (if src in support.at then support.at[src] else []) + targets);
  }

  lemma {:induction false} ExtendAllExact(support: OMap<seq<string>>, srcs: seq<string>, at: map<string, seq<string>>)
    requires Consistent(support) && forall u | u in srcs :: u in at
    ensures var r := ExtendAll(support, srcs, at);
            && Consistent(r)
            && (forall u, v :: Supports(r.at, u, v) <==> Supports(support.at, u, v) || (u in srcs && v in at[u]))
  {
    if srcs != [] {
      var n := |srcs| - 1;
      ExtendAllExact(support, srcs[..n], at);
      ExtendExact(ExtendAll(support, srcs[..n], at), srcs[n], at[srcs[n]]);
      assert srcs == srcs[..n] + [srcs[n]];
    }
  }

  /** One concept supports another in the merged graph exactly when it does in some state. */
  lemma {:induction false} MergedExact(states: seq<KnowledgeState>)
    requires ProperStates(states)
    ensures var r := MergedSupport(states);
            && Consistent(r)
            && (forall u, v :: Supports(r.at, u, v) <==> exists s :: s in states && Supports(s.support.at, u, v))
  {
    if states != [] {
      var n := |states| - 1;
      MergedExact(states[..n]);
      ExtendAllExact(MergedSupport(states[..n]), states[n].support.keys, states[n].support.at);
      assert states == states[..n] + [states[n]];
    }
  }

  /** The loops that merge the support graphs, in the order in which the states are given. */
  method MergeSupport(states: seq<KnowledgeState>) returns (support: OMap<seq<string>>)
    requires ProperStates(states)
    ensures support == MergedSupport(states)
  {
    support := Empty();
    for i := 0 to |states|
      invariant support == MergedSupport(states[..i])
    {
      assert states[..i + 1][..i] == states[..i];
      ghost var before := support;
      var graph := states[i].support;
      for j := 0 to |graph.keys|
        invariant support == ExtendAll(before, graph.keys[..j], graph.at)
      {
        assert graph.keys[..j + 1][..j] == graph.keys[..j];
        var src := graph.keys[j];
        if src !in support.at { support := Set(support, src, []); }
        SetTwice(support, src, support.at[src], support.at[src] + graph.at[src]);
        support := Set(support, src, support.at[src] + graph.at[src]);
      }
      assert graph.keys[..|graph.keys|] == graph.keys;
    }
    assert states[..|states|] == states;
  }

  // ----- The pipeline

  /** The numbers of beliefs constructed from the bundles, after propagation along the support pairs. */
  ghost predicate Reasoned(bundles: seq<Bundle>, norm: TitleNormaliser, support: map<string, seq<string>>, config: ReasoningConfig, after: seq<Num>) {
    Settled(HeldFromAll(bundles, norm, config), IdsOf(bundles, norm), support, config.attenuation, after)
  }

  method AssessAndPropagate(bundles: seq<Bundle>, norm: TitleNormaliser, support: OMap<seq<string>>, config: ReasoningConfig) returns (beliefs: seq<Belief>)
    requires Consistent(support)
    ensures fresh(beliefs) && |beliefs| == |bundles|
    ensures forall i | 0 <= i < |bundles| :: AssessedFrom(beliefs[i], bundles[i], config)
    ensures Reasoned(bundles, norm, support.at, config, NumbersOf(beliefs))
  {
    var ids;
    beliefs, ids := ConstructBeliefs(bundles, norm, config);
    FreshAreHeld(beliefs, bundles, norm, config);
    PropagateAssessed(beliefs, ids, support, config, bundles);
  }

  /**
   `reason`: whatever the support graphs, every belief stands for its bundle with a confidence
   between 0 and its local one, and together the confidences are what propagation makes of the
   bundles of all states. The contradictions are those between pairs of records.
   */
  method Reason(states: seq<KnowledgeState>, norm: TitleNormaliser, clock: Clock, read: Reader,
                suppressed: set<Contradictions.FindingId>, name: Contradictions.FindingId -> string, config: ReasoningConfig)
    returns (beliefs: seq<Belief>, cs: seq<Contradiction>)
    requires ProperStates(states)
    ensures fresh(beliefs) && |beliefs| == |Aggregated(states, norm, clock)|
    ensures forall i | 0 <= i < |beliefs| :: AssessedFrom(beliefs[i], Aggregated(states, norm, clock)[i], config)
    ensures Reasoned(Aggregated(states, norm, clock), norm, MergedSupport(states).at, config, NumbersOf(beliefs))
    ensures cs == ContradictionsOf(states, read, suppressed, name)
  {
    var bundles := Aggregate(states, norm, clock);
    var support := MergeSupport(states);
    MergedExact(states);
    beliefs := AssessAndPropagate(bundles, norm, support, config);
    cs := DetectAmong(states, read, suppressed, name);
  }

  /**
   `reason` followed by `synthesize`. Under the default synthesis configuration no decision ever
   has a priority above NORMAL, and with contradiction blocking only AFFIRM and MONITOR remain.
   */
  method Decide(states: seq<KnowledgeState>, norm: TitleNormaliser, clock: Clock, read: Reader, suppressed: set<Contradictions.FindingId>,
                name: Contradictions.FindingId -> string, config: ReasoningConfig, policy: Policy)
    returns (d: DecisionSet)
    requires ProperStates(states)
    ensures d.approvedCount + d.blockedCount == |Aggregated(states, norm, clock)|
    ensures forall j | 0 <= j < |d.decisions| :: Calm(d.decisions[j], policy)
  {
    var beliefs, cs := Reason(states, norm, clock, read, suppressed, name, config);
    var report, unsorted := Synthesize(beliefs, cs, DefaultSynthesis);
    AllCalm(unsorted, beliefs, Aggregated(states, norm, clock), config, cs, policy);
    d := Gate(report.items, policy);
  }

  /** What is known of every decision under the default synthesis configuration. */
  ghost predicate Calm(d: GateDecision, policy: Policy) {
    && (d.priority == Normal || d.priority == Low) && d.impact <= 0.44
    && d.category != Defer && d.confidence >= policy.minimumConfidence
    && (policy.blockIfContradicted ==> d.category == Affirm || d.category == Monitor)
  }

  lemma AllCalm(unsorted: seq<Item>, beliefs: seq<Belief>, bundles: seq<Bundle>, config: ReasoningConfig,
                cs: seq<Contradiction>, policy: Policy)
    requires |beliefs| == |bundles| && forall i | 0 <= i < |bundles| :: AssessedFrom(beliefs[i], bundles[i], config)
    requires RepresentAll(unsorted, Views(beliefs), cs, DefaultSynthesis)
    ensures var items := StableSort(unsorted, ItemLeq);
            |items| == |bundles| && forall j | 0 <= j < |Approved(items, policy)| :: Calm(DecisionOf(Approved(items, policy)[j], policy), policy)
  {
    ViewsLength(beliefs);
    SortKeepsElements(unsorted, ItemLeq);
    var items := StableSort(unsorted, ItemLeq);
    forall j | 0 <= j < |Approved(items, policy)| ensures Calm(DecisionOf(Approved(items, policy)[j], policy), policy) {
      ApprovedBounded(unsorted, beliefs, bundles, config, cs, policy, j);
    }
  }

  lemma ApprovedBounded(unsorted: seq<Item>, beliefs: seq<Belief>, bundles: seq<Bundle>, config: ReasoningConfig,
                        cs: seq<Contradiction>, policy: Policy, j: nat)
    requires |beliefs| == |bundles| && forall i | 0 <= i < |bundles| :: AssessedFrom(beliefs[i], bundles[i], config)
    requires RepresentAll(unsorted, Views(beliefs), cs, DefaultSynthesis)
    requires j < |Approved(StableSort(unsorted, ItemLeq), policy)|
    ensures Calm(DecisionOf(Approved(StableSort(unsorted, ItemLeq), policy)[j], policy), policy)
  {
    var items := StableSort(unsorted, ItemLeq);
    var item := Approved(items, policy)[j];
    ApprovedPasses(items, policy, j);
    SortKeepsElements(unsorted, ItemLeq);
    var i :| 0 <= i < |unsorted| && unsorted[i] == item;
    ViewsLength(beliefs);
    DecisionBounded(item, beliefs, bundles, config, cs, policy, i);
  }

  lemma ApprovedPasses(items: seq<Item>, policy: Policy, j: nat)
    requires j < |Approved(items, policy)|
    ensures Approved(items, policy)[j] in items && PassesGate(Approved(items, policy)[j], policy)
  {
    assert Approved(items, policy)[j] in Filter(Passing(policy), items);
  }

  lemma DecisionBounded(item: Item, beliefs: seq<Belief>, bundles: seq<Bundle>, config: ReasoningConfig,
                        cs: seq<Contradiction>, policy: Policy, i: nat)
    requires i < |beliefs| == |bundles| == |Views(beliefs)|
    requires AssessedFrom(beliefs[i], bundles[i], config)
    requires Represents(item, Views(beliefs)[i], cs, DefaultSynthesis) && PassesGate(item, policy)
    ensures (item.candidate.priority == Normal || item.candidate.priority == Low) && item.candidate.impact <= 0.44
    ensures policy.blockIfContradicted ==> item.candidate.category == Affirm || item.candidate.category == Monitor
  {
    ViewAt(beliefs, i);
    var v := ViewOf(beliefs[i]);
    ScoresBounded(bundles[i], config);
    ImpactBounded(v);
    NeverUrgent(v);
    if policy.blockIfContradicted {
      PassesExact(item, v, cs, DefaultSynthesis, policy);
    }
  }

  // ----- The order of the states

  lemma SameMerge(ss: seq<KnowledgeState>, ts: seq<KnowledgeState>)
    requires multiset(ss) == multiset(ts) && ProperStates(ss)
    ensures ProperStates(ts) && SameSupport(MergedSupport(ss).at, MergedSupport(ts).at)
  {
    SameElements(ss, ts);
    MergedExact(ss);
    MergedExact(ts);
  }

  /**
   Reasoning about the same states in another order. Unless some project has two different states,
   the bundles, the confidences and the contradictions are the same, each list in the same order.
   */
  lemma StateOrderIrrelevant(ss: seq<KnowledgeState>, ts: seq<KnowledgeState>, norm: TitleNormaliser, clock: Clock, config: ReasoningConfig,
                             after: seq<Num>, later: seq<Num>)
    requires multiset(ss) == multiset(ts) && OneStateEach(ss) && ProperStates(ss)
    requires Reasoned(Aggregated(ss, norm, clock), norm, MergedSupport(ss).at, config, after)
    requires ProperStates(ts) && Reasoned(Aggregated(ts, norm, clock), norm, MergedSupport(ts).at, config, later)
    ensures Aggregated(ss, norm, clock) == Aggregated(ts, norm, clock) && after == later
    ensures forall read, suppressed, name :: ContradictionsOf(ss, read, suppressed, name) == ContradictionsOf(ts, read, suppressed, name)
  {
    StateOrderExact(ss);
    assert InOrder(ts) == InOrder(ss);
    SameMerge(ss, ts);
    IdsConsistent(Aggregated(ss, norm, clock), norm);
    SupportAnyOrder(HeldFromAll(Aggregated(ss, norm, clock), norm, config), IdsOf(Aggregated(ss, norm, clock), norm),
                    MergedSupport(ss).at, MergedSupport(ts).at, config.attenuation, after, later);
  }

  lemma {:induction false} IdsConsistent(bundles: seq<Bundle>, norm: TitleNormaliser)
    ensures Consistent(IdsOf(bundles, norm))
  {
    if bundles != [] {
      var n := |bundles| - 1;
      IdsConsistent(bundles[..n], norm);
      SetConsistent(IdsOf(bundles[..n], norm), bundles[n].conceptId, BeliefIdOf(bundles[n], norm));
    }
  }
}
