/** The decision gate: which synthesis items a policy approves. */
module DecisionGate {
  import opened Orders
  import opened OrderedMaps
  import opened Synthesis

  datatype Policy = Policy(version: string, minimumConfidence: real, blockIfContradicted: bool, maxDecisions: int)

  const DefaultPolicy := Policy("1.0", 0.60, true, 0)

  /** The hash input of the `DEC-` id; the hash is taken as injective. */
  datatype GateDecisionId = GateDecisionId(policyVersion: string, synthesisId: SynthesisId)

  datatype GateDecision = GateDecision(
    decisionId: GateDecisionId, synthesisId: SynthesisId, beliefId: string, category: Category, priority: Urgency,
    confidence: real, impact: real, contradictionIds: seq<string>, title: string, content: string, policyVersion: string)

  datatype DecisionSet = DecisionSet(
    decisions: seq<GateDecision>, blocked: seq<Item>, policy: Policy, total: nat, approvedCount: nat, blockedCount: nat)

  predicate PassesGate(item: Item, policy: Policy) {
    if item.candidate.category == Defer then false
    else if item.candidate.confidence < policy.minimumConfidence then false
    else if policy.blockIfContradicted && item.candidate.contradictionIds != [] then false
    else true
  }

  function Passing(policy: Policy): Item -> bool { (i: Item) => PassesGate(i, policy) }
  function Failing(policy: Policy): Item -> bool { (i: Item) => !PassesGate(i, policy) }

  function DecisionOf(item: Item, policy: Policy): GateDecision {
    var c := item.candidate;
    GateDecision(GateDecisionId(policy.version, item.synthesisId), item.synthesisId, c.beliefId, c.category, c.priority,
             c.confidence, c.impact, c.contradictionIds, c.title, c.content, policy.version)
  }

  /** The decision carries what the item says, under an id of its own. */
  ghost predicate Decides(d: GateDecision, item: Item, policy: Policy) {
    && d.decisionId.policyVersion == d.policyVersion == policy.version
    && d.decisionId.synthesisId == d.synthesisId == item.synthesisId
    && d.beliefId == item.candidate.beliefId && d.category == item.candidate.category && d.priority == item.candidate.priority
    && d.confidence == item.candidate.confidence && d.impact == item.candidate.impact
    && d.contradictionIds == item.candidate.contradictionIds && d.title == item.candidate.title && d.content == item.candidate.content
  }

  /** How many of `n` passing items are approved; a cap of 0 or less is no cap. */
  function Allowed(n: nat, policy: Policy): nat {
    if policy.maxDecisions > 0 && n > policy.maxDecisions then policy.maxDecisions else n
  }

  function Approved(items: seq<Item>, policy: Policy): seq<Item> {
    var passing := Filter(Passing(policy), items);
    passing[..Allowed(|passing|, policy)]
  }

  function Overflow(items: seq<Item>, policy: Policy): seq<Item> {
    var passing := Filter(Passing(policy), items);
    passing[Allowed(|passing|, policy)..]
  }

  lemma FilterSnoc<T>(p: T -> bool, xs: seq<T>, i: nat)
    requires i < |xs|
    ensures Filter(p, xs[..i + 1]) == Filter(p, xs[..i]) + if p(xs[i]) then [xs[i]] else []
  {
    FilterAppend(p, xs[..i], [xs[i]]);
    assert xs[..i + 1] == xs[..i] + [xs[i]];
  }

  /** The collected pairs are the passing items with their decisions. */
  ghost predicate Paired(passed: seq<(Item, GateDecision)>, passing: seq<Item>, policy: Policy) {
    && |passed| == |passing|
    && forall i | 0 <= i < |passed| :: passed[i].0 == passing[i] && passed[i].1 == DecisionOf(passing[i], policy)
  }

  lemma PairedMore(passed: seq<(Item, GateDecision)>, passing: seq<Item>, policy: Policy, item: Item)
    requires Paired(passed, passing, policy)
    ensures Paired(passed + [(item, DecisionOf(item, policy))], passing + [item], policy)
  {
  }

  /** The loop of `gate`, with the pairs it collects. */
  method Collect(items: seq<Item>, policy: Policy) returns (passed: seq<(Item, GateDecision)>, blocked: seq<Item>)
    ensures Paired(passed, Filter(Passing(policy), items), policy)
    ensures blocked == Filter(Failing(policy), items)
  {
    passed, blocked := [], [];
    for k := 0 to |items|
      invariant Paired(passed, Filter(Passing(policy), items[..k]), policy)
      invariant blocked == Filter(Failing(policy), items[..k])
    {
      FilterSnoc(Passing(policy), items, k);
      FilterSnoc(Failing(policy), items, k);
      if PassesGate(items[k], policy) {
        PairedMore(passed, Filter(Passing(policy), items[..k]), policy, items[k]);
        passed := passed + [(items[k], DecisionOf(items[k], policy))];
      } else {
        blocked := blocked + [items[k]];
      }
    }
    assert items[..|items|] == items;
  }

  /** `gate`: the cap applies to the passing items in order, and the rest join the blocked ones. */
  method Gate(items: seq<Item>, policy: Policy) returns (d: DecisionSet)
    ensures |d.decisions| == |Approved(items, policy)|
    ensures forall i | 0 <= i < |d.decisions| :: d.decisions[i] == DecisionOf(Approved(items, policy)[i], policy)
    ensures forall i | 0 <= i < |d.decisions| :: Decides(d.decisions[i], Approved(items, policy)[i], policy)
    ensures d.blocked == Filter(Failing(policy), items) + Overflow(items, policy)
    ensures d.policy == policy && d.total == |items| && d.approvedCount == |d.decisions| && d.blockedCount == |d.blocked|
    ensures d.approvedCount + d.blockedCount == d.total
  {
    var passed, blocked := Collect(items, policy);
    ghost var passing := Filter(Passing(policy), items);
    if policy.maxDecisions > 0 && |passed| > policy.maxDecisions {
      var overflow := passed[policy.maxDecisions..];
      for i := 0 to |overflow|
        invariant blocked == Filter(Failing(policy), items) + passing[policy.maxDecisions..][..i]
      {
        assert passing[policy.maxDecisions..][..i + 1] == passing[policy.maxDecisions..][..i] + [overflow[i].0];
        blocked := blocked + [overflow[i].0];
      }
      assert passing[policy.maxDecisions..][..|overflow|] == passing[policy.maxDecisions..];
      passed := passed[..policy.maxDecisions];
    }
    var decisions: seq<GateDecision> := seq(|passed|, i requires 0 <= i < |passed| => passed[i].1);
    GatePartition(items, policy);
    d := DecisionSet(decisions, blocked, policy, |items|, |decisions|, |blocked|);
  }

  // ----- What the gate decides

  lemma {:induction false} FilterPartition<T(!new)>(p: T -> bool, q: T -> bool, xs: seq<T>)
    requires forall x :: q(x) <==> !p(x)
    ensures multiset(Filter(p, xs)) + multiset(Filter(q, xs)) == multiset(xs)
    ensures |Filter(p, xs)| + |Filter(q, xs)| == |xs|
  {
    if xs != [] {
      FilterPartition(p, q, xs[1..]);
      assert xs == [xs[0]] + xs[1..];
    }
  }

  /** Nothing is lost and nothing invented: approved and blocked items are the synthesis items. */
  lemma GatePartition(items: seq<Item>, policy: Policy)
    ensures multiset(Approved(items, policy)) + multiset(Filter(Failing(policy), items) + Overflow(items, policy)) == multiset(items)
    ensures |Approved(items, policy)| + |Filter(Failing(policy), items) + Overflow(items, policy)| == |items|
  {
    FilterPartition(Passing(policy), Failing(policy), items);
    var a, o, f := Approved(items, policy), Overflow(items, policy), Filter(Failing(policy), items);
    assert Filter(Passing(policy), items) == a + o;
    assert multiset(a + o) == multiset(a) + multiset(o) && multiset(f + o) == multiset(f) + multiset(o);
  }

  /** The place of a passing item among the approved ones is the number of passing items before it. */
  lemma PassingPlace(items: seq<Item>, policy: Policy, i: nat)
    requires i < |items| && PassesGate(items[i], policy)
    ensures var k := |Filter(Passing(policy), items[..i])|;
            k < |Filter(Passing(policy), items)| && Filter(Passing(policy), items)[k] == items[i]
  {
    FilterSnoc(Passing(policy), items, i);
    assert items == items[..i + 1] + items[i + 1..];
    FilterAppend(Passing(policy), items[..i + 1], items[i + 1..]);
  }

  /** A position is approved exactly if its item passes and fewer than the cap pass before it. */
  lemma ApprovedExact(items: seq<Item>, policy: Policy, i: nat)
    requires i < |items| && PassesGate(items[i], policy)
    ensures var k := |Filter(Passing(policy), items[..i])|;
            if policy.maxDecisions <= 0 || k < policy.maxDecisions
            then k < |Approved(items, policy)| && Approved(items, policy)[k] == items[i]
            else var o := k - |Approved(items, policy)|; 0 <= o < |Overflow(items, policy)| && Overflow(items, policy)[o] == items[i]
  {
    PassingPlace(items, policy, i);
  }

  lemma {:induction false} FilterSorted<T(!new)>(p: T -> bool, xs: seq<T>, leq: (T, T) -> bool)
    requires Sorted(xs, leq)
    ensures Sorted(Filter(p, xs), leq)
  {
    if xs != [] {
      FilterSorted(p, xs[1..], leq);
      forall x | x in Filter(p, xs[1..]) ensures leq(xs[0], x) {
        var j :| 0 <= j < |xs[1..]| && xs[1..][j] == x;
        assert xs[j + 1] == x;
      }
    }
  }

  /** Of the items that pass, none that is cut off comes before one that is approved. */
  lemma ApprovedAreTop(unsorted: seq<Item>, policy: Policy, approved: Item, cut: Item)
    requires approved in Approved(StableSort(unsorted, ItemLeq), policy)
    requires cut in Overflow(StableSort(unsorted, ItemLeq), policy)
    ensures MayStandBefore(approved.candidate, cut.candidate)
  {
    var items := StableSort(unsorted, ItemLeq);
    ItemOrder();
    StableSortCorrect(unsorted, ItemLeq);
    FilterSorted(Passing(policy), items, ItemLeq);
    var passing := Filter(Passing(policy), items);
    var n := Allowed(|passing|, policy);
    var i :| 0 <= i < n && passing[..n][i] == approved;
    var j :| 0 <= j < |passing| - n && passing[n..][j] == cut;
    assert ItemLeq(passing[i], passing[n + j]);
  }

  /** With contradiction blocking on, exactly the confident AFFIRM and MONITOR items pass; without, all confident ones but DEFER. */
  lemma PassesExact(item: Item, v: View, cs: seq<Contradiction>, config: SynthesisConfig, policy: Policy)
    requires config.breadthDivisor != 0.0 && Represents(item, v, cs, config)
    ensures PassesGate(item, policy) <==>
            && v.confidence >= policy.minimumConfidence
            && (item.candidate.category == Affirm || item.candidate.category == Monitor
                || (!policy.blockIfContradicted && item.candidate.category != Defer))
  {
  }

  /** The default policy blocks contradicted beliefs and those below 0.6, and caps nothing. */
  lemma DefaultGate(item: Item, n: nat)
    ensures PassesGate(item, DefaultPolicy) <==>
            item.candidate.category != Defer && item.candidate.confidence >= 0.6 && item.candidate.contradictionIds == []
    ensures Allowed(n, DefaultPolicy) == n
  {
  }
}
