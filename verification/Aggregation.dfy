/**
 Evidence aggregation: the active knowledge of all project states, grouped by normalised title, as
 one bundle for each title in the order of the titles.
 */
module Aggregation {
  import opened Wrappers
  import opened Orders
  import opened OrderedMaps
  import opened Propagation
  import opened Beliefs

  /** A time in days, with or without a time zone; the two kinds do not compare. */
  datatype Stamp = Stamp(zoned: bool, days: real)

  /** Knowledge as far as the aggregation reads it; `updated` is missing if the text is no time. */
  datatype Knowledge = Knowledge(
    id: string, title: string, content: string, project: string,
    supporting: seq<string>, contradicting: seq<string>, score: real, updated: Option<Stamp>)

  datatype Conflict = Conflict(titleA: string, titleB: string)

  datatype KnowledgeState = KnowledgeState(
    project: string, active: seq<Knowledge>, conflicts: seq<Conflict>, support: OMap<seq<string>>)

  /** Lower case, with runs of white space made single spaces. */
  type TitleNormaliser = string -> string

  predicate ProjectLeq(a: KnowledgeState, b: KnowledgeState) { StrLe(a.project, b.project) }

  // ----- One group of knowledge

  datatype Group = Group(
    conceptId: string, title: string, content: string, supporting: seq<string>, contradicting: seq<string>,
    projects: seq<string>, scores: seq<real>, updates: seq<Option<Stamp>>, findings: nat)

  function NewGroup(k: Knowledge): Group {
    Group(k.id, k.title, k.content, [], [], [], [], [], 0)
  }

  function Join(g: Group, k: Knowledge): Group {
    g.(supporting := AdjoinAll(g.supporting, k.supporting), contradicting := AdjoinAll(g.contradicting, k.contradicting),
       projects := Adjoin(g.projects, k.project), scores := g.scores + [k.score], updates := g.updates + [k.updated])
  }

  type Groups = OMap<Group>

  function AddKnowledge(norm: TitleNormaliser): (Groups, Knowledge) -> Groups {
    (m: Groups, k: Knowledge) =>
      var t := norm(k.title);
      Set(m, t, Join(if t in m.at then m.at[t] else NewGroup(k), k))
  }

  function Found(m: Groups, t: string): Groups {
    if t in m.at then Set(m, t, m.at[t].(findings := m.at[t].findings + 1)) else m
  }

  function AddConflict(norm: TitleNormaliser): (Groups, Conflict) -> Groups {
    (m: Groups, c: Conflict) => Found(Found(m, norm(c.titleA)), norm(c.titleB))
  }

  // ----- From a group to its bundle

  function Sum(xs: seq<real>): real {
    if xs == [] then 0.0 else Sum(xs[..|xs| - 1]) + xs[|xs| - 1]
  }

  function Average(xs: seq<real>): real {
    if xs == [] then 0.0 else Sum(xs) / (|xs| as real)
  }

  /** One more score joins the average with the weight of one. */
  lemma AverageMore(xs: seq<real>, x: real)
    ensures Average(xs + [x]) * ((|xs| + 1) as real) == Average(xs) * (|xs| as real) + x
    ensures Average([]) == 0.0
  {
    assert (xs + [x])[..|xs|] == xs;
  }

  /** The first time, or a later one of its kind. */
  function Newest(ts: seq<Option<Stamp>>): Option<Stamp> {
    if ts == [] then None
    else
      var before, t := Newest(ts[..|ts| - 1]), ts[|ts| - 1];
      if t.Some? && (before.None? || (t.value.zoned == before.value.zoned && t.value.days > before.value.days)) then t else before
  }

  function AgeOf(ts: seq<Option<Stamp>>, now: real): real {
    var newest := Newest(ts);
    if newest.Some? then Max(0.0, now - newest.value.days) else 0.0
  }

  function BundleOf(g: Group, now: real): Bundle {
    Bundle(g.conceptId, g.title, g.content, StableSort(g.supporting, StrLe), StableSort(g.contradicting, StrLe), g.findings,
           AgeOf(g.updates, now), |g.projects|,
           Average(g.scores))
  }

  /** The time that is read for each bundle in turn. */
  type Clock = nat -> real

  function BundlesOf(titles: seq<string>, at: map<string, Group>, clock: Clock): (r: seq<Bundle>)
    requires forall t | t in titles :: t in at
    ensures |r| == |titles|
  {
    if titles == [] then []
    else
      var n := |titles| - 1;
      BundlesOf(titles[..n], at, clock) + [BundleOf(at[titles[n]], clock(n))]
  }

  lemma {:induction false} BundlesAt(titles: seq<string>, at: map<string, Group>, clock: Clock, i: nat)
    requires i < |titles| && forall t | t in titles :: t in at
    ensures BundlesOf(titles, at, clock)[i] == BundleOf(at[titles[i]], clock(i))
  {
    if i < |titles| - 1 { BundlesAt(titles[..|titles| - 1], at, clock, i); }
  }

  // ----- `aggregate`

  function ActiveOf(states: seq<KnowledgeState>): seq<Knowledge> {
    if states == [] then [] else ActiveOf(states[..|states| - 1]) + states[|states| - 1].active
  }

  function ConflictsOf(states: seq<KnowledgeState>): seq<Conflict> {
    if states == [] then [] else ConflictsOf(states[..|states| - 1]) + states[|states| - 1].conflicts
  }

  /** The states by project. */
  function InOrder(states: seq<KnowledgeState>): seq<KnowledgeState> { StableSort(states, ProjectLeq) }

  function KnowledgeGroups(states: seq<KnowledgeState>, norm: TitleNormaliser): Groups {
    Fold(AddKnowledge(norm), Empty(), ActiveOf(states))
  }

  function GroupsOf(states: seq<KnowledgeState>, norm: TitleNormaliser): Groups {
    Fold(AddConflict(norm), KnowledgeGroups(states, norm), ConflictsOf(states))
  }

  function TitlesOf(groups: Groups): seq<string> { StableSort(groups.keys, StrLe) }

  function Aggregated(states: seq<KnowledgeState>, norm: TitleNormaliser, clock: Clock): seq<Bundle> {
    var groups := GroupsOf(InOrder(states), norm);
    GroupsExact(InOrder(states), norm);
    SortKeepsElements(groups.keys, StrLe);
    BundlesOf(TitlesOf(groups), groups.at, clock)
  }

  // ----- What the groups are

  function HasTitle(norm: TitleNormaliser, t: string): Knowledge -> bool {
    (k: Knowledge) => norm(k.title) == t
  }

  /** The knowledge with a title, in order. */
  function About(ks: seq<Knowledge>, norm: TitleNormaliser, t: string): seq<Knowledge> {
    Filter(HasTitle(norm, t), ks)
  }

  /** How often a title occurs in the conflicts, on either side. */
  function MentionCount(cs: seq<Conflict>, norm: TitleNormaliser, t: string): nat {
    if cs == [] then 0
    else
      var n := |cs| - 1;
      MentionCount(cs[..n], norm, t) + (if norm(cs[n].titleA) == t then 1 else 0) + (if norm(cs[n].titleB) == t then 1 else 0)
  }

  function JoinAll(ks: seq<Knowledge>): Group
    requires ks != []
  {
    Fold(Join, NewGroup(ks[0]), ks)
  }

  /** The groups of some knowledge: one for each title, which joins the knowledge with that title in order. */
  ghost predicate Grouped(m: Groups, ks: seq<Knowledge>, norm: TitleNormaliser) {
    && Consistent(m)
    && (forall t :: t in m.at <==> About(ks, norm, t) != [])
    && (forall t | t in m.at :: m.at[t] == JoinAll(About(ks, norm, t)))
  }

  /** The group of a title after one more piece of knowledge. */
  lemma JoinMore(ks: seq<Knowledge>, k: Knowledge, norm: TitleNormaliser, t: string)
    ensures var a, b := About(ks, norm, t), About(ks + [k], norm, t);
            if norm(k.title) == t then b == a + [k] && JoinAll(b) == Join(if a == [] then NewGroup(k) else JoinAll(a), k) else b == a
  {
    FilterAppend(HasTitle(norm, t), ks, [k]);
    assert Filter(HasTitle(norm, t), [k]) == if norm(k.title) == t then [k] else [];
    var a := About(ks, norm, t);
    if norm(k.title) == t {
      FoldMore(Join, NewGroup((a + [k])[0]), a, k);
      assert a == [] ==> Fold(Join, NewGroup(k), a) == NewGroup(k);
    }
  }

  lemma GroupedMore(m: Groups, ks: seq<Knowledge>, k: Knowledge, norm: TitleNormaliser)
    requires Grouped(m, ks, norm)
    ensures Grouped(AddKnowledge(norm)(m, k), ks + [k], norm)
  {
    var t := norm(k.title);
    SetConsistent(m, t, Join(if t in m.at then m.at[t] else NewGroup(k), k));
    forall u ensures u in AddKnowledge(norm)(m, k).at <==> About(ks + [k], norm, u) != [] { JoinMore(ks, k, norm, u); }
    forall u | u in AddKnowledge(norm)(m, k).at ensures AddKnowledge(norm)(m, k).at[u] == JoinAll(About(ks + [k], norm, u)) {
      JoinMore(ks, k, norm, u);
    }
  }

  lemma {:induction false} KnowledgeGrouped(ks: seq<Knowledge>, norm: TitleNormaliser)
    ensures Grouped(Fold(AddKnowledge(norm), Empty(), ks), ks, norm)
  {
    if ks != [] {
      var n := |ks| - 1;
      KnowledgeGrouped(ks[..n], norm);
      GroupedMore(Fold(AddKnowledge(norm), Empty(), ks[..n]), ks[..n], ks[n], norm);
      FoldMore(AddKnowledge(norm), Empty(), ks[..n], ks[n]);
      assert ks == ks[..n] + [ks[n]];
    }
  }

  /** `m` with the findings of some conflicts. */
  ghost predicate FoundIn(r: Groups, m: Groups, cs: seq<Conflict>, norm: TitleNormaliser) {
    && r.keys == m.keys && r.at.Keys == m.at.Keys
    && forall t | t in m.at :: r.at[t] == m.at[t].(findings := m.at[t].findings + MentionCount(cs, norm, t))
  }

  lemma FoundAt(m: Groups, t: string)
    ensures Found(m, t).keys == m.keys && Found(m, t).at.Keys == m.at.Keys
    ensures forall u | u in m.at :: Found(m, t).at[u] == m.at[u].(findings := m.at[u].findings + if u == t then 1 else 0)
  {
  }

  lemma MentionCountMore(cs: seq<Conflict>, c: Conflict, norm: TitleNormaliser, t: string)
    ensures MentionCount(cs + [c], norm, t) == MentionCount(cs, norm, t) + (if t == norm(c.titleA) then 1 else 0) + (if t == norm(c.titleB) then 1 else 0)
  {
    assert (cs + [c])[..|cs|] == cs;
  }

  /** A conflict adds its mentions of each title. */
  lemma FoundMore(r: Groups, m: Groups, cs: seq<Conflict>, c: Conflict, norm: TitleNormaliser)
    requires FoundIn(r, m, cs, norm)
    ensures FoundIn(AddConflict(norm)(r, c), m, cs + [c], norm)
  {
    var once := Found(r, norm(c.titleA));
    FoundAt(r, norm(c.titleA));
    FoundAt(once, norm(c.titleB));
    assert AddConflict(norm)(r, c) == Found(once, norm(c.titleB));
    forall t | t in m.at ensures Found(once, norm(c.titleB)).at[t] == m.at[t].(findings := m.at[t].findings + MentionCount(cs + [c], norm, t)) {
      MentionCountMore(cs, c, norm, t);
      assert r.at[t] == m.at[t].(findings := m.at[t].findings + MentionCount(cs, norm, t));
    }
  }

  lemma {:induction false} ConflictsFound(m: Groups, cs: seq<Conflict>, norm: TitleNormaliser)
    ensures FoundIn(Fold(AddConflict(norm), m, cs), m, cs, norm)
  {
    if cs != [] {
      var n := |cs| - 1;
      ConflictsFound(m, cs[..n], norm);
      FoldMore(AddConflict(norm), m, cs[..n], cs[n]);
      FoundMore(Fold(AddConflict(norm), m, cs[..n]), m, cs[..n], cs[n], norm);
      assert cs == cs[..n] + [cs[n]];
    }
  }

  /** Each group joins the knowledge of its title and counts the mentions of the title. */
  lemma GroupsExact(states: seq<KnowledgeState>, norm: TitleNormaliser)
    ensures var m, ks := GroupsOf(states, norm), ActiveOf(states);
            && Consistent(m)
            && (forall t :: t in m.at <==> About(ks, norm, t) != [])
            && (forall t | t in m.at :: m.at[t] == JoinAll(About(ks, norm, t)).(findings := MentionCount(ConflictsOf(states), norm, t)))
  {
    KnowledgeGrouped(ActiveOf(states), norm);
    ConflictsFound(KnowledgeGroups(states, norm), ConflictsOf(states), norm);
    forall t | About(ActiveOf(states), norm, t) != [] ensures JoinAll(About(ActiveOf(states), norm, t)).findings == 0 {
      JoinedFields(About(ActiveOf(states), norm, t));
    }
  }

  // ----- What a bundle is

  function ScoresOf(ks: seq<Knowledge>): seq<real> {
    if ks == [] then [] else ScoresOf(ks[..|ks| - 1]) + [ks[|ks| - 1].score]
  }

  function UpdatesOf(ks: seq<Knowledge>): seq<Option<Stamp>> {
    if ks == [] then [] else UpdatesOf(ks[..|ks| - 1]) + [ks[|ks| - 1].updated]
  }

  /** `xs` lists the ids of some memories of the knowledge, each once. */
  ghost predicate Lists(xs: seq<string>, ks: seq<Knowledge>, of: Knowledge -> seq<string>) {
    NoDup(xs) && forall x :: x in xs <==> exists k :: k in ks && x in of(k)
  }

  function SupportingOf(k: Knowledge): seq<string> { k.supporting }

  function ContradictingOf(k: Knowledge): seq<string> { k.contradicting }

  function ProjectOf(k: Knowledge): seq<string> { [k.project] }

  lemma ListsMore(xs: seq<string>, ks: seq<Knowledge>, k: Knowledge, of: Knowledge -> seq<string>)
    requires Lists(xs, ks, of)
    ensures Lists(AdjoinAll(xs, of(k)), ks + [k], of)
  {
    AdjoinAllExact(xs, of(k));
    forall x ensures x in AdjoinAll(xs, of(k)) <==> exists j :: j in ks + [k] && x in of(j) {
      if x in xs {
        var j :| j in ks && x in of(j);
        assert j in ks + [k];
      }
      assert k in ks + [k];
    }
  }

  /** What a group that starts from `k` holds after joining some knowledge. */
  ghost predicate Joined(g: Group, first: Knowledge, ks: seq<Knowledge>) {
    && g.conceptId == first.id && g.title == first.title && g.content == first.content && g.findings == 0
    && Lists(g.supporting, ks, SupportingOf) && Lists(g.contradicting, ks, ContradictingOf) && Lists(g.projects, ks, ProjectOf)
    && g.scores == ScoresOf(ks) && g.updates == UpdatesOf(ks)
  }

  lemma {:induction false} FoldJoined(first: Knowledge, ks: seq<Knowledge>)
    ensures Joined(Fold(Join, NewGroup(first), ks), first, ks)
  {
    if ks != [] {
      var n := |ks| - 1;
      var g, k := Fold(Join, NewGroup(first), ks[..n]), ks[n];
      FoldJoined(first, ks[..n]);
      FoldMore(Join, NewGroup(first), ks[..n], k);
      assert ks == ks[..n] + [k];
      ListsMore(g.supporting, ks[..n], k, SupportingOf);
      ListsMore(g.contradicting, ks[..n], k, ContradictingOf);
      ListsMore(g.projects, ks[..n], k, ProjectOf);
      AdjoinIsAll(g.projects, k.project);
    }
  }

  lemma AdjoinIsAll(xs: seq<string>, x: string)
    ensures AdjoinAll(xs, [x]) == Adjoin(xs, x)
  {
    assert [x][..0] == [];
  }

  lemma JoinedFields(ks: seq<Knowledge>)
    requires ks != []
    ensures Joined(JoinAll(ks), ks[0], ks)
  {
    FoldJoined(ks[0], ks);
  }

  /** The latest of the times of one kind, which is the kind of the first. */
  ghost predicate LatestOf(s: Stamp, ts: seq<Option<Stamp>>) {
    && Some(s) in ts
    && (exists i :: 0 <= i < |ts| && ts[i].Some? && ts[i].value.zoned == s.zoned && forall j | 0 <= j < i :: ts[j].None?)
    && (forall i | 0 <= i < |ts| && ts[i].Some? && ts[i].value.zoned == s.zoned :: ts[i].value.days <= s.days)
  }

  lemma {:induction false} NewestExact(ts: seq<Option<Stamp>>)
    ensures var r := Newest(ts);
            && (r.None? <==> forall i | 0 <= i < |ts| :: ts[i].None?)
            && (r.Some? ==> LatestOf(r.value, ts))
  {
    if ts != [] {
      var n := |ts| - 1;
      NewestExact(ts[..n]);
      NewestMore(ts[..n], ts[n]);
      assert ts == ts[..n] + [ts[n]];
    }
  }

  lemma NewestMore(ts: seq<Option<Stamp>>, t: Option<Stamp>)
    requires Newest(ts).None? <==> forall i | 0 <= i < |ts| :: ts[i].None?
    requires Newest(ts).Some? ==> LatestOf(Newest(ts).value, ts)
    ensures var r, us := Newest(ts + [t]), ts + [t];
            && (r.None? <==> forall i | 0 <= i < |us| :: us[i].None?)
            && (r.Some? ==> LatestOf(r.value, us))
  {
    var us := ts + [t];
    assert us[..|ts|] == ts && us[|ts|] == t;
    if Newest(ts).Some? {
      var s := Newest(ts).value;
      var i :| 0 <= i < |ts| && ts[i].Some? && ts[i].value.zoned == s.zoned && forall j | 0 <= j < i :: ts[j].None?;
      assert us[i] == ts[i] && forall j | 0 <= j < i :: us[j] == ts[j];
    }
  }

  /** What the updates say of the age of a bundle, in days; without a time it is new. */
  ghost predicate AgeIs(age: real, ts: seq<Option<Stamp>>, now: real) {
    && ((forall i | 0 <= i < |ts| :: ts[i].None?) ==> age == 0.0)
    && (forall s | LatestOf(s, ts) :: age == Max(0.0, now - s.days))
  }

  ghost predicate SortedList(xs: seq<string>, ks: seq<Knowledge>, of: Knowledge -> seq<string>) {
    Lists(xs, ks, of) && Sorted(xs, StrLe)
  }

  ghost function ProjectsOf(ks: seq<Knowledge>): set<string> {
    set k | k in ks :: k.project
  }

  /**
   The bundle of some knowledge about one title. The first piece names the concept and gives the
   text, the evidence is sorted, each memory once, projects are counted once, and scores averaged.
   */
  ghost predicate BundleFor(b: Bundle, ks: seq<Knowledge>, mentions: nat, now: real)
    requires ks != []
  {
    && b.conceptId == ks[0].id && b.title == ks[0].title && b.content == ks[0].content
    && SortedList(b.supportingEvidence, ks, SupportingOf) && SortedList(b.contradictingEvidence, ks, ContradictingOf)
    && b.contradictionFindings == mentions
    && b.sourceDiversity == |ProjectsOf(ks)|
    && b.baseConfidence == Average(ScoresOf(ks))
    && AgeIs(b.freshness, UpdatesOf(ks), now)
  }

  lemma SortedLists(xs: seq<string>, ks: seq<Knowledge>, of: Knowledge -> seq<string>)
    requires Lists(xs, ks, of)
    ensures SortedList(StableSort(xs, StrLe), ks, of)
  {
    SortKeepsElements(xs, StrLe);
    StrLeOrder();
    StableSortCorrect(xs, StrLe);
  }

  lemma ProjectsCounted(xs: seq<string>, ks: seq<Knowledge>)
    requires Lists(xs, ks, ProjectOf)
    ensures |xs| == |ProjectsOf(ks)|
  {
    NoDupSize(xs);
    var projects := ProjectsOf(ks);
    forall x ensures x in xs <==> x in projects {
      if x in xs {
        var k :| k in ks && x in ProjectOf(k);
        assert x == k.project;
      }
      if x in projects {
        var k :| k in ks && x == k.project;
        assert x in ProjectOf(k);
      }
    }
    assert Elements(xs) == projects;
  }

  lemma AgeExact(ts: seq<Option<Stamp>>, now: real)
    ensures AgeIs(AgeOf(ts, now), ts, now)
  {
    NewestExact(ts);
    forall s | LatestOf(s, ts) ensures Newest(ts).Some? && Newest(ts).value.days == s.days {
      SameLatest(s, Newest(ts).value, ts);
    }
  }

  lemma SameLatest(s: Stamp, r: Stamp, ts: seq<Option<Stamp>>)
    requires LatestOf(s, ts) && LatestOf(r, ts)
    ensures s == r
  {
    var i :| 0 <= i < |ts| && ts[i].Some? && ts[i].value.zoned == s.zoned && forall j | 0 <= j < i :: ts[j].None?;
    var k :| 0 <= k < |ts| && ts[k].Some? && ts[k].value.zoned == r.zoned && forall j | 0 <= j < k :: ts[j].None?;
    assert i == k;
    var m :| 0 <= m < |ts| && ts[m] == Some(s);
    var n :| 0 <= n < |ts| && ts[n] == Some(r);
    assert ts[m].value.days <= r.days && ts[n].value.days <= s.days;
  }

  lemma BundleExact(ks: seq<Knowledge>, mentions: nat, now: real)
    requires ks != []
    ensures BundleFor(BundleOf(JoinAll(ks).(findings := mentions), now), ks, mentions, now)
  {
    var g := JoinAll(ks);
    assert SortedList(StableSort(g.supporting, StrLe), ks, SupportingOf) by {
      JoinedFields(ks);
      SortedLists(g.supporting, ks, SupportingOf);
    }
    assert SortedList(StableSort(g.contradicting, StrLe), ks, ContradictingOf) by {
      JoinedFields(ks);
      SortedLists(g.contradicting, ks, ContradictingOf);
    }
    assert |g.projects| == |ProjectsOf(ks)| by {
      JoinedFields(ks);
      ProjectsCounted(g.projects, ks);
    }
    assert AgeIs(AgeOf(UpdatesOf(ks), now), UpdatesOf(ks), now) by { AgeExact(UpdatesOf(ks), now); }
    JoinedNames(ks);
  }

  lemma JoinedNames(ks: seq<Knowledge>)
    requires ks != []
    ensures var g := JoinAll(ks);
            g.conceptId == ks[0].id && g.title == ks[0].title && g.content == ks[0].content && g.scores == ScoresOf(ks) && g.updates == UpdatesOf(ks)
  {
    JoinedFields(ks);
  }

  function TitleOf(norm: TitleNormaliser): Bundle -> string {
    (b: Bundle) => norm(b.title)
  }

  /**
   The bundles of some knowledge: in strict order of their titles, one for each title of the
   knowledge, made of the knowledge with that title.
   */
  ghost predicate Aggregates(bs: seq<Bundle>, ks: seq<Knowledge>, cs: seq<Conflict>, norm: TitleNormaliser, clock: Clock) {
    && StrictBy(bs, TitleOf(norm), StrLe)
    && (forall k | k in ks :: exists b :: b in bs && norm(b.title) == norm(k.title))
    && (forall i | 0 <= i < |bs| ::
          var t := norm(bs[i].title);
          About(ks, norm, t) != [] && BundleFor(bs[i], About(ks, norm, t), MentionCount(cs, norm, t), clock(i)))
  }

  lemma AggregatedAt(states: seq<KnowledgeState>, norm: TitleNormaliser, clock: Clock, i: nat)
    requires i < |Aggregated(states, norm, clock)|
    ensures var b, t, ks := Aggregated(states, norm, clock)[i], TitlesOf(GroupsOf(InOrder(states), norm))[i], ActiveOf(InOrder(states));
            && norm(b.title) == t && About(ks, norm, t) != []
            && BundleFor(b, About(ks, norm, t), MentionCount(ConflictsOf(InOrder(states)), norm, t), clock(i))
  {
    var groups, ks := GroupsOf(InOrder(states), norm), ActiveOf(InOrder(states));
    GroupsExact(InOrder(states), norm);
    SortKeepsElements(groups.keys, StrLe);
    var t := TitlesOf(groups)[i];
    BundlesAt(TitlesOf(groups), groups.at, clock, i);
    BundleExact(About(ks, norm, t), MentionCount(ConflictsOf(InOrder(states)), norm, t), clock(i));
    assert HasTitle(norm, t)(About(ks, norm, t)[0]);
  }

  /** The titles of the bundles are those of the groups, in strict order. */
  lemma TitlesStrict(states: seq<KnowledgeState>, norm: TitleNormaliser, clock: Clock)
    ensures var bs, ts := Aggregated(states, norm, clock), TitlesOf(GroupsOf(InOrder(states), norm));
            |bs| == |ts| && (forall i | 0 <= i < |bs| :: norm(bs[i].title) == ts[i]) && StrictBy(bs, TitleOf(norm), StrLe)
  {
    var bs, groups := Aggregated(states, norm, clock), GroupsOf(InOrder(states), norm);
    var ts := TitlesOf(groups);
    SortedTitles(groups, InOrder(states), norm);
    forall i | 0 <= i < |bs| ensures norm(bs[i].title) == ts[i] { AggregatedAt(states, norm, clock, i); }
    forall i, j | 0 <= i < j < |bs|
      ensures StrLe(TitleOf(norm)(bs[i]), TitleOf(norm)(bs[j])) && TitleOf(norm)(bs[i]) != TitleOf(norm)(bs[j])
    {
      assert StrLe(ts[i], ts[j]) && ts[i] != ts[j];
    }
  }

  lemma SortedTitles(groups: Groups, sorted: seq<KnowledgeState>, norm: TitleNormaliser)
    requires groups == GroupsOf(sorted, norm)
    ensures NoDup(TitlesOf(groups)) && Sorted(TitlesOf(groups), StrLe)
    ensures forall t :: t in TitlesOf(groups) <==> About(ActiveOf(sorted), norm, t) != []
  {
    GroupsExact(sorted, norm);
    SortKeepsElements(groups.keys, StrLe);
    StrLeOrder();
    StableSortCorrect(groups.keys, StrLe);
  }

  lemma TitleHasBundle(states: seq<KnowledgeState>, norm: TitleNormaliser, clock: Clock, k: Knowledge)
    requires k in ActiveOf(InOrder(states))
    ensures exists b :: b in Aggregated(states, norm, clock) && norm(b.title) == norm(k.title)
  {
    var bs, ts := Aggregated(states, norm, clock), TitlesOf(GroupsOf(InOrder(states), norm));
    SortedTitles(GroupsOf(InOrder(states), norm), InOrder(states), norm);
    assert HasTitle(norm, norm(k.title))(k) && k in About(ActiveOf(InOrder(states)), norm, norm(k.title));
    TitlesStrict(states, norm, clock);
    var i :| 0 <= i < |ts| && ts[i] == norm(k.title);
    assert bs[i] in bs;
  }

  /** Main theorem on aggregation: the bundles are those of the active knowledge of all states, by project. */
  lemma AggregatedExact(states: seq<KnowledgeState>, norm: TitleNormaliser, clock: Clock)
    ensures Aggregates(Aggregated(states, norm, clock), ActiveOf(InOrder(states)), ConflictsOf(InOrder(states)), norm, clock)
  {
    var bs, ks, cs := Aggregated(states, norm, clock), ActiveOf(InOrder(states)), ConflictsOf(InOrder(states));
    TitlesStrict(states, norm, clock);
    forall k | k in ks ensures exists b :: b in bs && norm(b.title) == norm(k.title) { TitleHasBundle(states, norm, clock, k); }
    forall i | 0 <= i < |bs|
      ensures var t := norm(bs[i].title); About(ks, norm, t) != [] && BundleFor(bs[i], About(ks, norm, t), MentionCount(cs, norm, t), clock(i))
    {
      AggregatedAt(states, norm, clock, i);
    }
  }

  // ----- The loops

  method AttachKnowledge(start: Groups, k: Knowledge, norm: TitleNormaliser) returns (groups: Groups)
    ensures groups == AddKnowledge(norm)(start, k)
  {
    var t := norm(k.title);
    groups := start;
    if t !in groups.at { groups := Set(groups, t, NewGroup(k)); }
    SetTwice(start, t, groups.at[t], Join(groups.at[t], k));
    groups := Set(groups, t, Join(groups.at[t], k));
  }

  method GroupKnowledge(sorted: seq<KnowledgeState>, norm: TitleNormaliser) returns (groups: Groups)
    ensures groups == KnowledgeGroups(sorted, norm)
  {
    groups := Empty();
    for i := 0 to |sorted|
      invariant groups == KnowledgeGroups(sorted[..i], norm)
    {
      ghost var before := groups;
      var active := sorted[i].active;
      for j := 0 to |active|
        invariant groups == Fold(AddKnowledge(norm), before, active[..j])
      {
        FoldSnoc(AddKnowledge(norm), before, active, j);
        groups := AttachKnowledge(groups, active[j], norm);
      }
      assert active[..|active|] == active && sorted[..i + 1][..i] == sorted[..i];
      FoldSplit(AddKnowledge(norm), Empty(), ActiveOf(sorted[..i]), active);
    }
    assert sorted[..|sorted|] == sorted;
  }

  method AttachConflict(start: Groups, c: Conflict, norm: TitleNormaliser) returns (groups: Groups)
    ensures groups == AddConflict(norm)(start, c)
  {
    var a, b := norm(c.titleA), norm(c.titleB);
    groups := start;
    if a in groups.at { groups := Set(groups, a, groups.at[a].(findings := groups.at[a].findings + 1)); }
    assert groups == Found(start, a);
    if b in groups.at { groups := Set(groups, b, groups.at[b].(findings := groups.at[b].findings + 1)); }
    assert groups == Found(Found(start, a), b);
  }

  method GatherConflicts(sorted: seq<KnowledgeState>, norm: TitleNormaliser, start: Groups) returns (groups: Groups)
    ensures groups == Fold(AddConflict(norm), start, ConflictsOf(sorted))
  {
    groups := start;
    for i := 0 to |sorted|
      invariant groups == Fold(AddConflict(norm), start, ConflictsOf(sorted[..i]))
    {
      ghost var before := groups;
      var queue := sorted[i].conflicts;
      for j := 0 to |queue|
        invariant groups == Fold(AddConflict(norm), before, queue[..j])
      {
        FoldSnoc(AddConflict(norm), before, queue, j);
        groups := AttachConflict(groups, queue[j], norm);
      }
      assert queue[..|queue|] == queue && sorted[..i + 1][..i] == sorted[..i];
      FoldSplit(AddConflict(norm), start, ConflictsOf(sorted[..i]), queue);
    }
    assert sorted[..|sorted|] == sorted;
  }

  lemma BundlesSnoc(titles: seq<string>, at: map<string, Group>, clock: Clock, i: nat)
    requires i < |titles| && forall t | t in titles :: t in at
    ensures BundlesOf(titles[..i + 1], at, clock) == BundlesOf(titles[..i], at, clock) + [BundleOf(at[titles[i]], clock(i))]
  {
    PrefixMore(titles, i);
    BundlesMore(titles[..i], titles[i], at, clock);
  }

  lemma BundlesMore(titles: seq<string>, t: string, at: map<string, Group>, clock: Clock)
    requires forall u | u in titles + [t] :: u in at
    ensures BundlesOf(titles + [t], at, clock) == BundlesOf(titles, at, clock) + [BundleOf(at[t], clock(|titles|))]
  {
    assert (titles + [t])[..|titles|] == titles;
  }

  method BuildBundles(titles: seq<string>, at: map<string, Group>, clock: Clock) returns (bundles: seq<Bundle>)
    requires forall t | t in titles :: t in at
    ensures bundles == BundlesOf(titles, at, clock)
  {
    bundles := [];
    for i := 0 to |titles|
      invariant bundles == BundlesOf(titles[..i], at, clock)
    {
      BundlesSnoc(titles, at, clock, i);
      bundles := bundles + [BundleOf(at[titles[i]], clock(i))];
    }
    assert titles[..|titles|] == titles;
  }

  /** `EvidenceAggregator.aggregate` */
  method Aggregate(states: seq<KnowledgeState>, norm: TitleNormaliser, clock: Clock) returns (bundles: seq<Bundle>)
    ensures bundles == Aggregated(states, norm, clock)
    ensures Aggregates(bundles, ActiveOf(InOrder(states)), ConflictsOf(InOrder(states)), norm, clock)
  {
    var sorted := StableSort(states, ProjectLeq);
    var groups := GroupKnowledge(sorted, norm);
    groups := GatherConflicts(sorted, norm, groups);
    GroupsExact(sorted, norm);
    SortKeepsElements(groups.keys, StrLe);
    bundles := BuildBundles(StableSort(groups.keys, StrLe), groups.at, clock);
    AggregatedExact(states, norm, clock);
  }

  // ----- The order of the states

  lemma ProjectOrder()
    ensures TotalPreorder(ProjectLeq)
  {
    StrLeOrder();
    forall s: KnowledgeState, t: KnowledgeState ensures ProjectLeq(s, t) || ProjectLeq(t, s) {
      StrLeTotal(s.project, t.project);
    }
    forall s: KnowledgeState, t: KnowledgeState, u: KnowledgeState | ProjectLeq(s, t) && ProjectLeq(t, u) ensures ProjectLeq(s, u) {
      StrLeTransitive(s.project, t.project, u.project);
    }
  }

  /** No project has two different states. */
  ghost predicate OneStateEach(states: seq<KnowledgeState>) {
    forall s, t | s in states && t in states && s.project == t.project :: s == t
  }

  lemma TiesAreProjects(states: seq<KnowledgeState>)
    ensures NoTies(states, ProjectLeq) <==> OneStateEach(states)
  {
    forall s, t | s in states && t in states ensures ProjectLeq(s, t) && ProjectLeq(t, s) <==> s.project == t.project {
      StrLeTotal(s.project, t.project);
    }
  }

  /** The order in which the states are given does not reach the aggregation exactly when no project has two different states. */
  lemma StateOrderExact(states: seq<KnowledgeState>)
    ensures OneSortedForm(states, ProjectLeq) <==> OneStateEach(states)
  {
    ProjectOrder();
    TiesAreProjects(states);
    SortOrderExact(states, ProjectLeq);
  }

  lemma ActiveOfPair(s: KnowledgeState, t: KnowledgeState)
    ensures ActiveOf([s, t]) == s.active + t.active
  {
    assert [s, t][..1] == [s] && [s][..0] == [];
    assert ActiveOf([s]) == s.active;
  }

  lemma InOrderPair(s: KnowledgeState, t: KnowledgeState)
    requires s.project == t.project
    ensures InOrder([s, t]) == [s, t]
  {
    StrLeTotal(s.project, t.project);
    assert [s, t][1..] == [t] && [t][1..] == [];
    assert StableSort([t], ProjectLeq) == [t];
  }

  /** A bundle is named after the first knowledge with its title. */
  lemma NamedAfterFirst(states: seq<KnowledgeState>, norm: TitleNormaliser, clock: Clock, i: nat) returns (t: string)
    requires i < |Aggregated(states, norm, clock)|
    ensures var about := About(ActiveOf(InOrder(states)), norm, t); about != [] && Aggregated(states, norm, clock)[i].conceptId == about[0].id
  {
    AggregatedAt(states, norm, clock, i);
    t := norm(Aggregated(states, norm, clock)[i].title);
  }

  lemma FirstOfPair(j: Knowledge, k: Knowledge, norm: TitleNormaliser, t: string)
    requires norm(j.title) == norm(k.title) && About([j, k], norm, t) != []
    ensures About([j, k], norm, t)[0] == j
  {
    var p := HasTitle(norm, t);
    assert p(j) == p(k);
    var about := Filter(p, [j, k]);
    assert about[0] in about && p(about[0]);
    assert about == [j] + Filter(p, [j, k][1..]);
  }

  /** Every bundle is named after the knowledge of the first state. */
  lemma FirstNames(s: KnowledgeState, t: KnowledgeState, norm: TitleNormaliser, clock: Clock, i: nat)
    requires s.project == t.project && |s.active| == |t.active| == 1 && norm(s.active[0].title) == norm(t.active[0].title)
    requires i < |Aggregated([s, t], norm, clock)|
    ensures Aggregated([s, t], norm, clock)[i].conceptId == s.active[0].id
  {
    var title := NamedAfterFirst([s, t], norm, clock, i);
    assert ActiveOf(InOrder([s, t])) == [s.active[0], t.active[0]] by {
      InOrderPair(s, t);
      ActiveOfPair(s, t);
    }
    FirstOfPair(s.active[0], t.active[0], norm, title);
  }

  lemma SomeBundle(s: KnowledgeState, t: KnowledgeState, norm: TitleNormaliser, clock: Clock)
    requires s.project == t.project && |s.active| == |t.active| == 1
    ensures Aggregated([s, t], norm, clock) != []
  {
    InOrderPair(s, t);
    ActiveOfPair(s, t);
    assert s.active[0] in s.active + t.active;
    TitleHasBundle([s, t], norm, clock, s.active[0]);
  }

  /** Two states of one project with knowledge about one title: the first in the list names the concept. */
  lemma SameProjectOrderMatters(s: KnowledgeState, t: KnowledgeState, norm: TitleNormaliser, clock: Clock)
    requires s.project == t.project && |s.active| == |t.active| == 1
    requires norm(s.active[0].title) == norm(t.active[0].title) && s.active[0].id != t.active[0].id
    ensures Aggregated([s, t], norm, clock) != Aggregated([t, s], norm, clock)
  {
    SomeBundle(s, t, norm, clock);
    SomeBundle(t, s, norm, clock);
    FirstNames(s, t, norm, clock, 0);
    FirstNames(t, s, norm, clock, 0);
  }
}
