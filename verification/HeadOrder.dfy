/**
 The lists of a head, by the names of priorities and statuses: which items they hold, in which order,
 and, for a head of full replay, which events decide that.
 */
module HeadOrder {
  import opened Wrappers
  import opened Orders
  import opened OrderedMaps
  import opened Folds
  import opened Heads
  import Histories

  // ----- Priorities

  /** The same priority, or neither is "critical", "high" or "low". */
  predicate SamePriority(p: string, q: string) {
    p == q || (p !in {"critical", "high", "low"} && q !in {"critical", "high", "low"})
  }

  /** An item of priority `p` may stand before one of priority `q`: critical, high, the others, low. */
  predicate MayPrecede(p: string, q: string) {
    && (q == "critical" ==> p == "critical")
    && (q == "high" ==> p == "critical" || p == "high")
    && (p == "low" ==> q == "low")
  }

  function LikePriority<T>(p: string, priority: T -> string): T -> bool {
    x => SamePriority(p, priority(x))
  }

  function QualifiesLike<T>(p: string, priority: T -> string, qualifies: T -> bool): T -> bool {
    x => qualifies(x) && SamePriority(p, priority(x))
  }

  /** The list has exactly the items that qualify, in order of priority, those of one priority in their old order. */
  ghost predicate ListedByPriority<T(!new)>(xs: seq<T>, all: seq<T>, qualifies: T -> bool, priority: T -> string) {
    && (forall i, j | 0 <= i < j < |xs| :: MayPrecede(priority(xs[i]), priority(xs[j])))
    && (forall x :: x in xs <==> x in all && qualifies(x))
    && (forall p: string :: Filter(LikePriority(p, priority), xs) == Filter(QualifiesLike(p, priority, qualifies), all))
  }

  /** The order sorts by priority in that sense. */
  ghost predicate SortsByPriority<T(!new)>(leq: (T, T) -> bool, priority: T -> string) {
    && TotalPreorder(leq)
    && (forall x, y :: leq(x, y) ==> MayPrecede(priority(x), priority(y)))
    && (forall x, y :: leq(x, y) && leq(y, x) <==> SamePriority(priority(x), priority(y)))
  }

  lemma {:induction false} BandIsFilter<T(!new)>(g: T, xs: seq<T>, leq: (T, T) -> bool, p: T -> bool)
    requires forall x :: p(x) <==> leq(g, x) && leq(x, g)
    ensures Band(g, xs, leq) == Filter(p, xs)
  {
    if xs != [] { BandIsFilter(g, xs[1..], leq, p); }
  }

  lemma {:induction false} FilterTwice<T>(p: T -> bool, q: T -> bool, both: T -> bool, xs: seq<T>)
    requires forall x | x in xs :: both(x) <==> p(x) && q(x)
    ensures Filter(q, Filter(p, xs)) == Filter(both, xs)
  {
    if xs != [] {
      FilterTwice(p, q, both, xs[1..]);
      assert xs == [xs[0]] + xs[1..];
      var first := if p(xs[0]) then [xs[0]] else [];
      FilterAppend(q, first, Filter(p, xs[1..]));
      assert Filter(q, first) == if both(xs[0]) then [xs[0]] else [];
    }
  }

  /** Items like `g` come out of the sort in the order in which they qualified. */
  lemma TierKept<T(!new)>(all: seq<T>, qualifies: T -> bool, priority: T -> string, leq: (T, T) -> bool, g: T)
    requires SortsByPriority(leq, priority)
    ensures Filter(LikePriority(priority(g), priority), StableSort(Filter(qualifies, all), leq)) ==
            Filter(QualifiesLike(priority(g), priority, qualifies), all)
  {
    var like := LikePriority(priority(g), priority);
    StableSortCorrect(Filter(qualifies, all), leq);
    BandIsFilter(g, StableSort(Filter(qualifies, all), leq), leq, like);
    BandIsFilter(g, Filter(qualifies, all), leq, like);
    FilterTwice(qualifies, like, QualifiesLike(priority(g), priority, qualifies), all);
  }

  lemma SortRanks<T(!new)>(all: seq<T>, qualifies: T -> bool, priority: T -> string, leq: (T, T) -> bool, sample: string -> T)
    requires SortsByPriority(leq, priority) && forall p :: priority(sample(p)) == p
    ensures ListedByPriority(StableSort(Filter(qualifies, all), leq), all, qualifies, priority)
  {
    var xs := StableSort(Filter(qualifies, all), leq);
    StableSortCorrect(Filter(qualifies, all), leq);
    SortKeepsElements(Filter(qualifies, all), leq);
    forall p: string ensures Filter(LikePriority(p, priority), xs) == Filter(QualifiesLike(p, priority, qualifies), all) {
      TierKept(all, qualifies, priority, leq, sample(p));
      assert priority(sample(p)) == p;
    }
  }

  // ----- The lists of a head

  function PriorityOfTask(t: Task): string { t.priority }
  function PriorityOfQuestion(q: Question): string { q.priority }
  function NotCompleted(t: Task): bool { t.status != "completed" }
  function StatusAccepted(d: Decision): bool { d.status == "accepted" }
  function StatusOpen(q: Question): bool { q.status == "open" }

  function TaskOf(priority: string): Task { Task("", "", "", "", None, priority, [], [], None, None, None, "", [], []) }
  function QuestionOf(priority: string): Question { Question("", "", "", "", priority, None, [], None, None, "") }

  lemma TasksSortByPriority()
    ensures SortsByPriority(TaskLeq, PriorityOfTask)
  {
  }

  lemma QuestionsSortByPriority()
    ensures SortsByPriority(QuestionLeq, PriorityOfQuestion)
  {
  }

  lemma {:induction false} SameFilter<T>(p: T -> bool, q: T -> bool, xs: seq<T>)
    requires forall x | x in xs :: p(x) <==> q(x)
    ensures Filter(p, xs) == Filter(q, xs)
  {
    if xs != [] {
      SameFilter(p, q, xs[1..]);
      assert xs == [xs[0]] + xs[1..];
    }
  }

  /** Main theorem on heads: every list by status and priority, in dict order within a priority, and the project's fields. */
  lemma HeadExact(project: string, s: State, version: int)
    ensures var h := HeadOf(project, s, version);
            && h.projectId == project && h.ledgerVersion == version
            && h.projectName == s.project.name && h.projectGoal == s.project.goal && h.currentFocus == s.project.currentFocus
            && ListedByPriority(h.activeTasks, Values(s.tasks), NotCompleted, PriorityOfTask)
            && ListedByPriority(h.openQuestions, Values(s.questions), StatusOpen, PriorityOfQuestion)
            && h.activeDecisions == Filter(StatusAccepted, Values(s.decisions))
  {
    TasksSortByPriority();
    QuestionsSortByPriority();
    SortRanks(Values(s.tasks), NotCompleted, PriorityOfTask, TaskLeq, TaskOf);
    SortRanks(Values(s.questions), StatusOpen, PriorityOfQuestion, QuestionLeq, QuestionOf);
    SameFilter(IsActive, NotCompleted, Values(s.tasks));
    SameFilter(IsOpen, StatusOpen, Values(s.questions));
    SameFilter(IsAccepted, StatusAccepted, Values(s.decisions));
  }

  function ByPriority<T>(priority: T -> string): (T, T) -> bool {
    (x, y) => MayPrecede(priority(x), priority(y))
  }

  /** There is only one such list. */
  lemma ListedUnique<T(!new)>(xs: seq<T>, ys: seq<T>, all: seq<T>, qualifies: T -> bool, priority: T -> string)
    requires ListedByPriority(xs, all, qualifies, priority) && ListedByPriority(ys, all, qualifies, priority)
    ensures xs == ys
  {
    var leq := ByPriority(priority);
    forall g ensures Band(g, xs, leq) == Band(g, ys, leq) {
      BandIsFilter(g, xs, leq, LikePriority(priority(g), priority));
      BandIsFilter(g, ys, leq, LikePriority(priority(g), priority));
    }
    StableArrangementUnique(xs, ys, leq);
  }

  // ----- The order of the blockers

  function BlockerTask(b: Blocker): string { b.taskId }
  function PairTask(p: (string, string)): string { p.0 }

  /** The tasks that wait for one of the open questions, in order. */
  function WaitingTasks(ts: seq<Task>, open: set<string>): seq<string> {
    if ts == [] then []
    else
      var n := |ts| - 1;
      WaitingTasks(ts[..n], open) + if exists q | q in ts[n].blockedBy :: q in open then [ts[n].taskId] else []
  }

  function KnownIn(known: set<string>): string -> bool { id => id in known }

  /** The known tasks that the questions name, in order. */
  function NamedTasks(qs: seq<Question>, known: set<string>): seq<string> {
    if qs == [] then []
    else
      var n := |qs| - 1;
      NamedTasks(qs[..n], known) + Filter(KnownIn(known), qs[n].blocksTaskIds)
  }

  lemma {:induction false} AdjoinAppend(xs: seq<string>, ys: seq<string>, zs: seq<string>)
    ensures AdjoinAll(xs, ys + zs) == AdjoinAll(AdjoinAll(xs, ys), zs)
  {
    if zs == [] {
      assert ys + zs == ys;
    } else {
      var n := |zs| - 1;
      AdjoinAppend(xs, ys, zs[..n]);
      assert (ys + zs)[..|ys| + n] == ys + zs[..n];
    }
  }

  /** The keys of the blocker map: the tasks of the pairs, when they first come. */
  lemma {:induction false} RecordKeys(m: BlockerMap, pairs: seq<(string, string)>)
    requires Consistent(m)
    ensures Consistent(RecordAll(m, pairs)) && RecordAll(m, pairs).keys == AdjoinAll(m.keys, Apply(PairTask, pairs))
  {
    if pairs != [] {
      var n := |pairs| - 1;
      RecordKeys(m, pairs[..n]);
      RecordOne(m, pairs[..n], pairs[n]);
      assert pairs == pairs[..n] + [pairs[n]];
      var before := RecordAll(m, pairs[..n]);
      SetConsistent(before, pairs[n].0, Adjoin(if pairs[n].0 in before.at then before.at[pairs[n].0] else [], pairs[n].1));
      Histories.AdjoinMore(m.keys, Apply(PairTask, pairs[..n]), pairs[n].0);
    }
  }

  lemma OnePairMore(pairs: seq<(string, string)>, p: (string, string))
    ensures Apply(PairTask, pairs + [p]) == Apply(PairTask, pairs) + [p.0]
  {
    assert (pairs + [p])[..|pairs|] == pairs;
  }

  lemma {:induction false} WaitingOnce(xs: seq<string>, id: string, blockedBy: seq<string>, open: set<string>)
    ensures AdjoinAll(xs, Apply(PairTask, PairsOfTask(id, blockedBy, open))) == if exists q | q in blockedBy :: q in open then Adjoin(xs, id) else xs
  {
    if blockedBy != [] {
      var n := |blockedBy| - 1;
      var before := PairsOfTask(id, blockedBy[..n], open);
      WaitingOnce(xs, id, blockedBy[..n], open);
      assert forall q :: q in blockedBy <==> q in blockedBy[..n] || q == blockedBy[n];
      if blockedBy[n] in open {
        OnePairMore(before, (id, blockedBy[n]));
        Histories.AdjoinMore(xs, Apply(PairTask, before), id);
      } else {
        assert PairsOfTask(id, blockedBy, open) == before;
      }
    }
  }

  lemma {:induction false} WaitingInOrder(xs: seq<string>, ts: seq<Task>, open: set<string>)
    ensures AdjoinAll(xs, Apply(PairTask, TaskPairs(ts, open))) == AdjoinAll(xs, WaitingTasks(ts, open))
  {
    if ts != [] {
      var n := |ts| - 1;
      var before := TaskPairs(ts[..n], open);
      WaitingInOrder(xs, ts[..n], open);
      ApplyAppend(PairTask, before, PairsOfTask(ts[n].taskId, ts[n].blockedBy, open));
      AdjoinAppend(xs, Apply(PairTask, before), Apply(PairTask, PairsOfTask(ts[n].taskId, ts[n].blockedBy, open)));
      WaitingOnce(AdjoinAll(xs, Apply(PairTask, before)), ts[n].taskId, ts[n].blockedBy, open);
      Histories.AdjoinMore(xs, WaitingTasks(ts[..n], open), ts[n].taskId);
    }
  }

  lemma OneMoreKnown(blocks: seq<string>, k: string, known: set<string>)
    ensures Filter(KnownIn(known), blocks + [k]) == Filter(KnownIn(known), blocks) + if k in known then [k] else []
  {
    FilterAppend(KnownIn(known), blocks, [k]);
    assert Filter(KnownIn(known), [k]) == if k in known then [k] else [];
  }

  lemma {:induction false} NamedOnce(id: string, blocks: seq<string>, known: set<string>)
    ensures Apply(PairTask, PairsOfQuestion(id, blocks, known)) == Filter(KnownIn(known), blocks)
  {
    if blocks != [] {
      var n := |blocks| - 1;
      var before := PairsOfQuestion(id, blocks[..n], known);
      NamedOnce(id, blocks[..n], known);
      OneMoreKnown(blocks[..n], blocks[n], known);
      assert blocks == blocks[..n] + [blocks[n]];
      if blocks[n] in known {
        OnePairMore(before, (blocks[n], id));
      } else {
        assert PairsOfQuestion(id, blocks, known) == before;
      }
    }
  }

  lemma {:induction false} NamedInOrder(qs: seq<Question>, known: set<string>)
    ensures Apply(PairTask, QuestionPairs(qs, known)) == NamedTasks(qs, known)
  {
    if qs != [] {
      var n := |qs| - 1;
      NamedInOrder(qs[..n], known);
      NamedOnce(qs[n].questionId, qs[n].blocksTaskIds, known);
      ApplyAppend(PairTask, QuestionPairs(qs[..n], known), PairsOfQuestion(qs[n].questionId, qs[n].blocksTaskIds, known));
    }
  }

  lemma {:induction false} ListedKeys(keys: seq<string>, m: map<string, seq<string>>, tasks: map<string, Task>)
    requires forall k | k in keys :: k in tasks
    ensures Apply(BlockerTask, ListBlockers(keys, m, tasks)) == keys
  {
    if keys != [] {
      var n := |keys| - 1;
      ListedKeys(keys[..n], m, tasks);
      assert keys == keys[..n] + [keys[n]];
      ApplyAppend(BlockerTask, ListBlockers(keys[..n], m, tasks), [Blocker(keys[n], tasks[keys[n]].title, SortedIds(m, keys[n]))]);
      assert [Blocker(keys[n], tasks[keys[n]].title, SortedIds(m, keys[n]))][..0] == [];
    }
  }

  /** The blockers of a head: first the tasks that wait for open questions, in the head's order, then those that open questions name. */
  lemma BlockersInOrder(project: string, s: State, version: int)
    requires Keyed(s)
    ensures var h := HeadOf(project, s, version);
            Apply(BlockerTask, h.blockers) ==
            AdjoinAll([], WaitingTasks(h.activeTasks, set q | q in h.openQuestions :: q.questionId) + NamedTasks(h.openQuestions, s.tasks.at.Keys))
  {
    var ts, qs, known := SelectTasks(Values(s.tasks)), SelectQuestions(Values(s.questions)), s.tasks.at.Keys;
    var open := QuestionIds(qs);
    var pairs := TaskPairs(ts, open) + QuestionPairs(qs, known);
    RecordKeys(Empty(), pairs);
    ApplyAppend(PairTask, TaskPairs(ts, open), QuestionPairs(qs, known));
    AdjoinAppend([], Apply(PairTask, TaskPairs(ts, open)), Apply(PairTask, QuestionPairs(qs, known)));
    WaitingInOrder([], ts, open);
    NamedInOrder(qs, known);
    AdjoinAppend([], WaitingTasks(ts, open), NamedTasks(qs, known));
    KeysKnown(s, pairs);
    ListedKeys(MapBlockers(ts, qs, known).keys, MapBlockers(ts, qs, known).at, s.tasks.at);
  }

  lemma KeysKnown(s: State, pairs: seq<(string, string)>)
    requires Keyed(s)
    requires var ts, qs := SelectTasks(Values(s.tasks)), SelectQuestions(Values(s.questions));
             pairs == TaskPairs(ts, QuestionIds(qs)) + QuestionPairs(qs, s.tasks.at.Keys)
    ensures forall k | k in RecordAll(Empty(), pairs).keys :: k in s.tasks.at
  {
    BlockerMapExact(pairs);
    forall k | k in RecordAll(Empty(), pairs).keys ensures k in s.tasks.at {
      var q :| (k, q) in pairs;
      TaskPairsAreBlocks(s, k, q);
      QuestionPairsAreBlocks(s, k, q);
    }
  }

  // ----- The head of full replay, from the events

  /** The events leave an accepted decision. */
  ghost predicate AcceptedBy(events: seq<Event>, k: string) {
    var proposed, judged := LastIndex(events, Histories.ProposesDecision(k)), LastIndex(events, Histories.Judges(k));
    proposed.Some? && Histories.IsLater(judged, proposed) && events[judged.value].body.DecisionAccepted?
  }

  /** The events raise a question and do not resolve it after that. */
  ghost predicate OpenBy(events: seq<Event>, k: string) {
    var raised, resolved := LastIndex(events, Histories.Raises(k)), LastIndex(events, Histories.Resolves(k));
    raised.Some? && !Histories.IsLater(resolved, raised)
  }

  /** The events create a task, and the last of them that sets its status leaves it uncompleted. */
  ghost predicate ActiveBy(events: seq<Event>, k: string) {
    var last := LastIndex(events, Histories.SetsField(k, Histories.Status));
    LastIndex(events, Histories.CreatesTask(k)).Some? && last.Some?
    && Histories.SetTo(events[last.value], k, Histories.Status) != Some(Histories.Text("completed"))
  }

  /** A list of the dict's items that qualify has an item with the id exactly when the dict's item does. */
  lemma ListedKey<V(!new)>(xs: seq<V>, m: OMap<V>, qualifies: V -> bool, id: V -> string, k: string)
    requires Consistent(m) && forall j | j in m.at :: id(m.at[j]) == j
    requires forall x :: x in xs <==> x in Values(m) && qualifies(x)
    ensures (exists x :: x in xs && id(x) == k) <==> k in m.at && qualifies(m.at[k])
  {
    if x :| x in xs && id(x) == k { InValues(m, x); }
    if k in m.at && qualifies(m.at[k]) {
      InValues(m, m.at[k]);
      assert m.at[k] in xs;
    }
  }

  function IdOfTask(t: Task): string { t.taskId }
  function IdOfDecision(d: Decision): string { d.decisionId }
  function IdOfQuestion(q: Question): string { q.questionId }

  lemma TaskListed(project: string, events: seq<Event>, version: int, k: string)
    ensures (exists t :: t in HeadOf(project, Reduce(Initial, events), version).activeTasks && IdOfTask(t) == k) <==> ActiveBy(events, k)
  {
    var m := FoldTasks(Empty(), events);
    HeadExact(project, Reduce(Initial, events), version);
    TasksKeyed(Empty(), events);
    ListedKey(HeadOf(project, Reduce(Initial, events), version).activeTasks, m, NotCompleted, IdOfTask, k);
    StatusByEvents(events, k);
  }

  lemma StatusByEvents(events: seq<Event>, k: string)
    ensures var m := FoldTasks(Empty(), events); k in m.at && NotCompleted(m.at[k]) <==> ActiveBy(events, k)
  {
    Histories.TasksExact(Empty(), events, k);
    var m := FoldTasks(Empty(), events);
    if k in m.at { assert Histories.FieldHistory(m.at[k], map[], events, k, Histories.Status); }
  }

  lemma DecisionListed(project: string, events: seq<Event>, version: int, k: string)
    ensures (exists d :: d in HeadOf(project, Reduce(Initial, events), version).activeDecisions && IdOfDecision(d) == k) <==> AcceptedBy(events, k)
  {
    var m := FoldDecisions(Empty(), events);
    HeadExact(project, Reduce(Initial, events), version);
    DecisionsKeyed(Empty(), events);
    ListedKey(HeadOf(project, Reduce(Initial, events), version).activeDecisions, m, StatusAccepted, IdOfDecision, k);
    Histories.DecisionsExact(Empty(), events, k);
  }

  lemma QuestionListed(project: string, events: seq<Event>, version: int, k: string)
    ensures (exists q :: q in HeadOf(project, Reduce(Initial, events), version).openQuestions && IdOfQuestion(q) == k) <==> OpenBy(events, k)
  {
    var m := FoldQuestions(Empty(), events);
    HeadExact(project, Reduce(Initial, events), version);
    QuestionsKeyed(Empty(), events);
    ListedKey(HeadOf(project, Reduce(Initial, events), version).openQuestions, m, StatusOpen, IdOfQuestion, k);
    Histories.QuestionsExact(Empty(), events, k);
  }

  /** What a head of full replay lists, from the events alone. */
  lemma ListedByEvents(project: string, events: seq<Event>, version: int, k: string)
    ensures var h := HeadOf(project, Reduce(Initial, events), version);
            && ((exists t :: t in h.activeTasks && IdOfTask(t) == k) <==> ActiveBy(events, k))
            && ((exists d :: d in h.activeDecisions && IdOfDecision(d) == k) <==> AcceptedBy(events, k))
            && ((exists q :: q in h.openQuestions && IdOfQuestion(q) == k) <==> OpenBy(events, k))
  {
    TaskListed(project, events, version, k);
    DecisionListed(project, events, version, k);
    QuestionListed(project, events, version, k);
  }
}
