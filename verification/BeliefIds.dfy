/**
 When each concept of `reason` is represented by the belief of its own bundle. A belief's id is the
 digest of its title and content joined by a colon, so two titles can share one.
 */
module BeliefIds {
  import opened Wrappers
  import opened Orders
  import opened OrderedMaps
  import opened SupportGraph
  import opened Propagation
  import opened ConceptMaps
  import opened BeliefOrder
  import opened Beliefs
  import opened Aggregation
  import opened Engine

  // ----- Joined texts

  /** The longer title is the shorter one and the start of its content, up to a colon; the contents agree from there on. */
  ghost predicate Splits(title: string, content: string, longer: string, rest: string) {
    exists x: string :: longer == title + ":" + x && content == x + ":" + rest
  }

  lemma LongerSplits(title: string, content: string, longer: string, rest: string)
    requires title + ":" + content == longer + ":" + rest && |title| < |longer|
    ensures Splits(title, content, longer, rest)
  {
    var text, n := title + ":" + content, |title| + 1;
    var x := longer[n..];
    assert longer == text[..|longer|] && text[..n] == title + ":";
    assert longer == title + ":" + x;
    assert content == text[n..] && content == x + ":" + rest;
  }

  lemma SplitJoins(title: string, content: string, longer: string, rest: string)
    requires Splits(title, content, longer, rest)
    ensures title + ":" + content == longer + ":" + rest && |title| < |longer|
  {
    var x: string :| longer == title + ":" + x && content == x + ":" + rest;
    assert title + ":" + (x + ":" + rest) == (title + ":" + x) + ":" + rest;
  }

  lemma SameLength(title: string, content: string, other: string, rest: string)
    requires title + ":" + content == other + ":" + rest && |title| == |other|
    ensures title == other
  {
    assert title == (title + ":" + content)[..|title|];
    assert other == (other + ":" + rest)[..|title|];
  }

  /** Different titles give one text exactly when one of them splits the other's content. */
  lemma JoinedExact(title: string, content: string, other: string, rest: string)
    requires title != other
    ensures title + ":" + content == other + ":" + rest <==> Splits(title, content, other, rest) || Splits(other, rest, title, content)
  {
    if title + ":" + content == other + ":" + rest {
      if |title| < |other| {
        LongerSplits(title, content, other, rest);
      } else if |other| < |title| {
        LongerSplits(other, rest, title, content);
      } else {
        SameLength(title, content, other, rest);
      }
    }
    if Splits(title, content, other, rest) { SplitJoins(title, content, other, rest); }
    if Splits(other, rest, title, content) { SplitJoins(other, rest, title, content); }
  }

  lemma {:induction false} PrefixLe(a: string, b: string)
    ensures StrLe(a, a + b)
  {
    if a != "" {
      PrefixLe(a[1..], b);
      assert (a + b)[1..] == a[1..] + b;
    }
  }

  lemma SplitsLater(title: string, content: string, longer: string, rest: string)
    requires Splits(title, content, longer, rest)
    ensures StrLe(title, longer) && title != longer
  {
    var x: string :| longer == title + ":" + x && content == x + ":" + rest;
    Regroup(title, ":", x);
    LaterBy(title, ":" + x);
  }

  lemma LaterBy(title: string, end: string)
    requires end != ""
    ensures StrLe(title, title + end) && title != title + end
  {
    PrefixLe(title, end);
    assert |title + end| > |title|;
  }

  // ----- Beliefs with one id

  function ConceptIdOf(b: Bundle): string { b.conceptId }

  function TextOf(norm: TitleNormaliser): Bundle -> string {
    (b: Bundle) => BeliefIdOf(b, norm)
  }

  /** The title of bundle `j` splits the content of bundle `i`. */
  ghost predicate TakesOver(bs: seq<Bundle>, norm: TitleNormaliser, i: nat, j: nat)
    requires i < |bs| && j < |bs|
  {
    Splits(norm(bs[i].title), norm(bs[i].content), norm(bs[j].title), norm(bs[j].content))
  }

  /** Of bundles in the order of their titles, two beliefs have one id exactly when the later title splits the earlier content. */
  lemma SharedIdExact(bs: seq<Bundle>, norm: TitleNormaliser, i: nat, j: nat)
    requires StrictBy(bs, TitleOf(norm), StrLe) && i < j < |bs|
    ensures BeliefIdOf(bs[i], norm) == BeliefIdOf(bs[j], norm) <==> TakesOver(bs, norm, i, j)
  {
    var t, u := norm(bs[i].title), norm(bs[j].title);
    assert TitleOf(norm)(bs[i]) == t && TitleOf(norm)(bs[j]) == u;
    JoinedExact(t, norm(bs[i].content), u, norm(bs[j].content));
    if Splits(u, norm(bs[j].content), t, norm(bs[i].content)) {
      SplitsLater(u, norm(bs[j].content), t, norm(bs[i].content));
      StrLeTotal(t, u);
    }
  }

  lemma DistinctIdsExact(bs: seq<Bundle>, norm: TitleNormaliser)
    requires StrictBy(bs, TitleOf(norm), StrLe)
    ensures Distinct(bs, TextOf(norm)) <==> forall i, j | 0 <= i < j < |bs| :: !TakesOver(bs, norm, i, j)
  {
    forall i, j | 0 <= i < j < |bs| ensures TextOf(norm)(bs[i]) == TextOf(norm)(bs[j]) <==> TakesOver(bs, norm, i, j) {
      SharedIdExact(bs, norm, i, j);
    }
  }

  // ----- Concepts and their own beliefs

  /** The last bundle of a concept gives its belief id. */
  lemma {:induction false} IdsHas(bs: seq<Bundle>, norm: TitleNormaliser, i: nat)
    requires i < |bs|
    ensures bs[i].conceptId in IdsOf(bs, norm).at
    ensures (forall j | i < j < |bs| :: bs[j].conceptId != bs[i].conceptId) ==> IdsOf(bs, norm).at[bs[i].conceptId] == BeliefIdOf(bs[i], norm)
  {
    var n := |bs| - 1;
    if i < n {
      IdsHas(bs[..n], norm, i);
      assert bs[..n][i] == bs[i];
    }
  }

  lemma {:induction false} IdsFrom(bs: seq<Bundle>, norm: TitleNormaliser, c: string) returns (i: nat)
    requires c in IdsOf(bs, norm).at
    ensures i < |bs| && bs[i].conceptId == c
  {
    i := |bs| - 1;
    if bs[i].conceptId != c { i := IdsFrom(bs[..i], norm, c); }
  }

  /** Belief `i` stands for the concept of bundle `i`. */
  ghost predicate HasOwnBelief(bs: seq<Bundle>, norm: TitleNormaliser, config: ReasoningConfig, i: nat)
    requires i < |bs|
  {
    StandsFor(HeldFromAll(bs, norm, config), HeldId, IdsOf(bs, norm), bs[i].conceptId, i)
  }

  lemma DistinctHasOwn(bs: seq<Bundle>, norm: TitleNormaliser, config: ReasoningConfig, i: nat)
    requires Distinct(bs, ConceptIdOf) && Distinct(bs, TextOf(norm)) && i < |bs|
    ensures HasOwnBelief(bs, norm, config, i)
  {
    var ids, hs := IdsOf(bs, norm), HeldFromAll(bs, norm, config);
    IdsConsistent(bs, norm);
    OwnId(bs, norm, i);
    var c := ConceptOf(ids, BeliefIdOf(bs[i], norm));
    FirstConceptExact(ids.keys, ids.at, BeliefIdOf(bs[i], norm));
    var k := IdsFrom(bs, norm, c.value);
    OwnId(bs, norm, k);
    assert TextOf(norm)(bs[k]) == TextOf(norm)(bs[i]);
    forall j | i < j < |hs| ensures HeldId(hs[j]) != HeldId(hs[i]) { assert TextOf(norm)(bs[j]) == HeldId(hs[j]); }
  }

  lemma OwnId(bs: seq<Bundle>, norm: TitleNormaliser, i: nat)
    requires Distinct(bs, ConceptIdOf) && i < |bs|
    ensures bs[i].conceptId in IdsOf(bs, norm).at && IdsOf(bs, norm).at[bs[i].conceptId] == BeliefIdOf(bs[i], norm)
  {
    forall j | i < j < |bs| ensures bs[j].conceptId != bs[i].conceptId { assert ConceptIdOf(bs[j]) == bs[j].conceptId; }
    IdsHas(bs, norm, i);
  }

  /** Every concept is represented by its own bundle's belief exactly when concept ids and belief ids are distinct. */
  lemma OwnBeliefsExact(bs: seq<Bundle>, norm: TitleNormaliser, config: ReasoningConfig)
    ensures (forall i: nat | i < |bs| :: HasOwnBelief(bs, norm, config, i)) <==> Distinct(bs, ConceptIdOf) && Distinct(bs, TextOf(norm))
  {
    if Distinct(bs, ConceptIdOf) && Distinct(bs, TextOf(norm)) {
      forall i: nat | i < |bs| ensures HasOwnBelief(bs, norm, config, i) { DistinctHasOwn(bs, norm, config, i); }
    }
    if forall i: nat | i < |bs| :: HasOwnBelief(bs, norm, config, i) {
      forall i, j | 0 <= i < j < |bs| ensures ConceptIdOf(bs[i]) != ConceptIdOf(bs[j]) && TextOf(norm)(bs[i]) != TextOf(norm)(bs[j]) {
        OwnApart(bs, norm, config, i, j);
      }
    }
  }

  lemma OwnApart(bs: seq<Bundle>, norm: TitleNormaliser, config: ReasoningConfig, i: nat, j: nat)
    requires i < j < |bs| && HasOwnBelief(bs, norm, config, i) && HasOwnBelief(bs, norm, config, j)
    ensures bs[i].conceptId != bs[j].conceptId && BeliefIdOf(bs[i], norm) != BeliefIdOf(bs[j], norm)
  {
    var hs := HeldFromAll(bs, norm, config);
    assert HeldId(hs[i]) != HeldId(hs[j]);
    ConceptHasId(IdsOf(bs, norm), HeldId(hs[i]));
    ConceptHasId(IdsOf(bs, norm), HeldId(hs[j]));
  }

  /**
   Main theorem: in `reason` every concept is represented by its own bundle's belief exactly when
   no two bundles were named after knowledge of one id, and no title splits the content of another.
   */
  lemma ReasonOwnBeliefs(states: seq<KnowledgeState>, norm: TitleNormaliser, clock: Clock, config: ReasoningConfig)
    ensures var bs := Aggregated(states, norm, clock);
            (forall i: nat | i < |bs| :: HasOwnBelief(bs, norm, config, i))
            <==> Distinct(bs, ConceptIdOf) && forall i, j | 0 <= i < j < |bs| :: !TakesOver(bs, norm, i, j)
  {
    var bs := Aggregated(states, norm, clock);
    AggregatedExact(states, norm, clock);
    DistinctIdsExact(bs, norm);
    OwnBeliefsExact(bs, norm, config);
  }

  /** Then the confidences solve the propagation equations with each concept's own assessment. */
  lemma OwnConfidences(bs: seq<Bundle>, norm: TitleNormaliser, support: map<string, seq<string>>, config: ReasoningConfig, after: seq<Num>)
    returns (s: Nums)
    requires forall i: nat | i < |bs| :: HasOwnBelief(bs, norm, config, i)
    requires Reasoned(bs, norm, support, config, after) && Acyclic(Restrict(IdsOf(bs, norm).keys, support))
    ensures Solves(Restrict(IdsOf(bs, norm).keys, support), StartNums(HeldFromAll(bs, norm, config), IdsOf(bs, norm)), s, config.attenuation)
    ensures forall i | 0 <= i < |bs| :: bs[i].conceptId in s && after[i] == s[bs[i].conceptId]
    ensures var start := StartNums(HeldFromAll(bs, norm, config), IdsOf(bs, norm));
            forall i | 0 <= i < |bs| :: bs[i].conceptId in start && start[bs[i].conceptId] == HeldFrom(bs[i], norm, config).num
  {
    var hs, ids := HeldFromAll(bs, norm, config), IdsOf(bs, norm);
    var g := Restrict(ids.keys, support);
    s :| Solves(g, StartNums(hs, ids), s, config.attenuation)
         && forall k | 0 <= k < |hs| && LastOfId(hs, HeldId, k) :: HoldsSolved(hs[k], ids, s, after[k]);
    forall i: nat | i < |bs|
      ensures bs[i].conceptId in s && after[i] == s[bs[i].conceptId]
      ensures bs[i].conceptId in StartNums(hs, ids) && StartNums(hs, ids)[bs[i].conceptId] == HeldFrom(bs[i], norm, config).num
    {
      assert HasOwnBelief(bs, norm, config, i);
      MappedExact(hs, HeldId, ids, bs[i].conceptId);
      assert HoldsSolved(hs[i], ids, s, after[i]);
    }
  }

  // ----- A longer title takes over

  function PlainKnowledge(id: string, title: string, content: string, score: real): Knowledge {
    Knowledge(id, title, content, "p", [], [], score, None)
  }

  /** Three titles of one project; the first concept supports the third. */
  const ExampleState := KnowledgeState(
    "p", [PlainKnowledge("k1", "a", "b:c", 1.0), PlainKnowledge("k2", "a:b", "c", 0.5), PlainKnowledge("k3", "u", "x", 1.0)], [],
    OMap(["k1"], map["k1" := ["k3"]]))

  function PlainBundle(k: Knowledge): Bundle {
    Bundle(k.id, k.title, k.content, [], [], 0, 0.0, 1, k.score)
  }

  function ExampleBundles(): seq<Bundle> {
    [PlainBundle(ExampleState.active[0]), PlainBundle(ExampleState.active[1]), PlainBundle(ExampleState.active[2])]
  }

  /** The example's titles and contents are normal already. */
  predicate ExampleIsNormal(norm: TitleNormaliser) {
    forall t | t in {"a", "a:b", "u", "b:c", "c", "x"} :: norm(t) == t
  }

  lemma ExampleInOrder()
    ensures InOrder([ExampleState]) == [ExampleState] && ActiveOf([ExampleState]) == ExampleState.active && ConflictsOf([ExampleState]) == []
  {
    assert [ExampleState][1..] == [] && [ExampleState][..0] == [];
  }

  lemma ExampleAbout(norm: TitleNormaliser, i: nat)
    requires ExampleIsNormal(norm) && i < 3
    ensures About(ExampleState.active, norm, ExampleState.active[i].title) == [ExampleState.active[i]]
  {
    var ks, p := ExampleState.active, HasTitle(norm, ExampleState.active[i].title);
    assert ks[1..] == [ks[1], ks[2]] && ks[1..][1..] == [ks[2]] && ks[1..][1..][1..] == [];
    assert p(ks[0]) <==> i == 0;
    assert p(ks[1]) <==> i == 1;
    assert p(ks[2]) <==> i == 2;
    assert Filter(p, [ks[2]]) == if i == 2 then [ks[2]] else [];
    assert Filter(p, [ks[1], ks[2]]) == if i == 0 then [] else [ks[i]];
  }

  lemma HasElement<T>(xs: seq<T>)
    ensures xs != [] ==> exists x :: x in xs
  {
    if xs != [] { assert xs[0] in xs; }
  }

  lemma PlainBundleFor(b: Bundle, k: Knowledge, now: real)
    requires k.supporting == k.contradicting == [] && k.updated == None && BundleFor(b, [k], 0, now)
    ensures b == PlainBundle(k)
  {
    assert [k][..0] == [];
    HasElement(b.supportingEvidence);
    HasElement(b.contradictingEvidence);
    assert ProjectsOf([k]) == {k.project};
    assert ScoresOf([k]) == [k.score] && Sum([k.score]) == k.score by { assert [k.score][..0] == []; }
    assert UpdatesOf([k]) == [None];
  }

  lemma ExampleTitle(norm: TitleNormaliser, t: string)
    requires ExampleIsNormal(norm)
    ensures About(ExampleState.active, norm, t) != [] <==> t in ["a", "a:b", "u"]
  {
    var about := About(ExampleState.active, norm, t);
    if about != [] { assert about[0] in ExampleState.active && HasTitle(norm, t)(about[0]); }
    if t in ["a", "a:b", "u"] {
      var i :| 0 <= i < 3 && ["a", "a:b", "u"][i] == t;
      ExampleAbout(norm, i);
    }
  }

  lemma ExampleOrder(ts: seq<string>)
    requires NoDup(ts) && Sorted(ts, StrLe) && forall t :: t in ts <==> t in ["a", "a:b", "u"]
    ensures ts == ["a", "a:b", "u"]
  {
    PrefixLe("a", ":b");
    assert Sorted(["a", "a:b", "u"], StrLe);
    StrLeOrder();
    SetMultiset(ts, ["a", "a:b", "u"]);
    SortedUnique(ts, ["a", "a:b", "u"], StrLe);
  }

  lemma ExampleTitles(norm: TitleNormaliser)
    requires ExampleIsNormal(norm)
    ensures TitlesOf(GroupsOf([ExampleState], norm)) == ["a", "a:b", "u"]
  {
    ExampleInOrder();
    SortedTitles(GroupsOf([ExampleState], norm), [ExampleState], norm);
    forall t ensures About(ExampleState.active, norm, t) != [] <==> t in ["a", "a:b", "u"] { ExampleTitle(norm, t); }
    ExampleOrder(TitlesOf(GroupsOf([ExampleState], norm)));
  }

  lemma ExampleBundleAt(norm: TitleNormaliser, clock: Clock, i: nat)
    requires ExampleIsNormal(norm) && i < 3
    ensures |Aggregated([ExampleState], norm, clock)| == 3 && Aggregated([ExampleState], norm, clock)[i] == PlainBundle(ExampleState.active[i])
  {
    ExampleInOrder();
    ExampleTitles(norm);
    TitlesStrict([ExampleState], norm, clock);
    AggregatedAt([ExampleState], norm, clock, i);
    ExampleAbout(norm, i);
    PlainBundleFor(Aggregated([ExampleState], norm, clock)[i], ExampleState.active[i], clock(i));
  }

  lemma ExampleAggregated(norm: TitleNormaliser, clock: Clock)
    requires ExampleIsNormal(norm)
    ensures Aggregated([ExampleState], norm, clock) == ExampleBundles()
  {
    ExampleBundleAt(norm, clock, 0);
    ExampleBundleAt(norm, clock, 1);
    ExampleBundleAt(norm, clock, 2);
  }

  /** "a" with "b:c" and "a:b" with "c" have one id, so the first concept with that id gets the later belief. */
  lemma ExampleStart(norm: TitleNormaliser)
    requires ExampleIsNormal(norm)
    ensures var ids, hs := IdsOf(ExampleBundles(), norm), HeldFromAll(ExampleBundles(), norm, DefaultReasoning);
            && Consistent(ids) && ids.keys == ["k1", "k2", "k3"] && |hs| == 3
            && HeldId(hs[0]) == HeldId(hs[1]) && LastOfId(hs, HeldId, 2) && ConceptOf(ids, HeldId(hs[2])) == Some("k3")
            && StartNums(hs, ids) == map["k1" := Num(0.5, 0.0, 0.5), "k3" := Num(1.0, 0.0, 1.0)]
  {
    var ids, hs := IdsOf(ExampleBundles(), norm), HeldFromAll(ExampleBundles(), norm, DefaultReasoning);
    IdsConsistent(ExampleBundles(), norm);
    ExampleIds(norm);
    ExampleHeld(norm, 0);
    ExampleHeld(norm, 1);
    ExampleHeld(norm, 2);
    SharedStart(hs, ids);
  }

  lemma ExampleHeld(norm: TitleNormaliser, i: nat)
    requires ExampleIsNormal(norm) && i < 3
    ensures BeliefIdOf(ExampleBundles()[i], norm) == ["a:b:c", "a:b:c", "u:x"][i]
    ensures var score := ExampleState.active[i].score;
            HeldFrom(ExampleBundles()[i], norm, DefaultReasoning) == Held(["a:b:c", "a:b:c", "u:x"][i], Num(score, 0.0, score))
  {
  }

  lemma ExampleIds(norm: TitleNormaliser)
    requires ExampleIsNormal(norm)
    ensures IdsOf(ExampleBundles(), norm) == OMap(["k1", "k2", "k3"], map["k1" := "a:b:c", "k2" := "a:b:c", "k3" := "u:x"])
  {
    var bs := ExampleBundles();
    ExampleHeld(norm, 0);
    ExampleHeld(norm, 1);
    ExampleHeld(norm, 2);
    assert bs[..2][..1] == bs[..1] && bs[..1][..0] == [];
    assert IdsOf(bs[..1], norm) == OMap(["k1"], map["k1" := "a:b:c"]);
    assert IdsOf(bs[..2], norm) == OMap(["k1", "k2"], map["k1" := "a:b:c", "k2" := "a:b:c"]);
  }

  lemma SharedStart(hs: seq<Held>, ids: OMap<string>)
    requires |hs| == 3 && hs[0].beliefId == hs[1].beliefId == "a:b:c" && hs[2].beliefId == "u:x"
    requires ids == OMap(["k1", "k2", "k3"], map["k1" := "a:b:c", "k2" := "a:b:c", "k3" := "u:x"])
    ensures ConceptOf(ids, "u:x") == Some("k3") && StartNums(hs, ids) == map["k1" := hs[1].num, "k3" := hs[2].num]
  {
    assert ids.keys[1..] == ["k2", "k3"] && ids.keys[1..][1..] == ["k3"];
    assert FirstConcept(["k3"], ids.at, "u:x") == Some("k3");
    assert FirstConcept(["k2", "k3"], ids.at, "u:x") == Some("k3");
    assert ConceptOf(ids, "a:b:c") == Some("k1");
    assert hs[..2][..1] == hs[..1] && hs[..1][..0] == [];
    assert Mapped(hs[..1], HeldId, ids) == map["k1" := hs[0]];
    assert Mapped(hs[..2], HeldId, ids) == map["k1" := hs[1]];
    assert Mapped(hs, HeldId, ids) == map["k1" := hs[1], "k3" := hs[2]];
  }

  lemma ExampleSupport()
    ensures ProperStates([ExampleState]) && OnePair(MergedSupport([ExampleState]).at, "k1", "k3")
  {
    MergedExact([ExampleState]);
    forall u, v ensures Supports(MergedSupport([ExampleState]).at, u, v) <==> u == "k1" && v == "k3" {
      assert Supports(ExampleState.support.at, u, v) <==> u == "k1" && v == "k3";
      assert ExampleState in [ExampleState];
    }
  }

  /** With one support pair, from the first concept to the third, the third ends at 0.6. */
  lemma ThirdLowered(norm: TitleNormaliser, support: map<string, seq<string>>, after: seq<Num>)
    requires ExampleIsNormal(norm) && OnePair(support, "k1", "k3") && Reasoned(ExampleBundles(), norm, support, DefaultReasoning, after)
    ensures |after| == 3 && after[2].final == 0.6
  {
    ExampleStart(norm);
    OneSupporter(HeldFromAll(ExampleBundles(), norm, DefaultReasoning), IdsOf(ExampleBundles(), norm), support, 0.8, after, 2, "k1", "k3");
  }

  /** The first belief keeps its own confidence. */
  lemma FirstKept(norm: TitleNormaliser, support: map<string, seq<string>>, after: seq<Num>)
    requires ExampleIsNormal(norm) && Reasoned(ExampleBundles(), norm, support, DefaultReasoning, after)
    ensures |after| == 3 && after[0] == Num(1.0, 0.0, 1.0)
  {
    ExampleHeld(norm, 0);
    ExampleHeld(norm, 1);
    assert !LastOfId(HeldFromAll(ExampleBundles(), norm, DefaultReasoning), HeldId, 0);
  }

  /**
   An input of `reason`: the third concept has confidence 1 and its only supporter too, yet it ends
   at 0.6, because the supporter is represented by the belief of the bundle "a:b".
   */
  lemma LongerTitleTakesOver(norm: TitleNormaliser, clock: Clock, after: seq<Num>)
    requires ExampleIsNormal(norm) && ProperStates([ExampleState])
    requires Reasoned(Aggregated([ExampleState], norm, clock), norm, MergedSupport([ExampleState]).at, DefaultReasoning, after)
    ensures var bs := Aggregated([ExampleState], norm, clock);
            && |after| == |bs| == 3 && Assess(bs[0], DefaultReasoning).localConfidence == Assess(bs[2], DefaultReasoning).localConfidence == 1.0
            && after[0].final == 1.0 && after[2].final == 0.6
  {
    ExampleAggregated(norm, clock);
    ExampleSupport();
    ExampleHeld(norm, 0);
    ExampleHeld(norm, 2);
    ThirdLowered(norm, MergedSupport([ExampleState]).at, after);
    FirstKept(norm, MergedSupport([ExampleState]).at, after);
  }
}
