/** The cognitive head: filtered and sorted reducer state, and the blockers derived from it. */
module Heads {
  import opened Orders
  import opened OrderedMaps
  import opened Folds
  import opened LiveObjects
  import opened Reducers

  datatype Blocker = Blocker(taskId: string, taskTitle: string, blockedByQuestions: seq<string>)

  datatype Head = Head(
    projectId: string, projectName: string, projectGoal: string, currentFocus: string, ledgerVersion: int,
    activeTasks: seq<Task>, activeDecisions: seq<Decision>, openQuestions: seq<Question>, blockers: seq<Blocker>)

  /** The place of a priority; an unknown one counts as normal. */
  function PriorityRank(priority: string): int {
    if priority == "critical" then 0
    else if priority == "high" then 1
    else if priority == "low" then 3
    else 2
  }

  predicate TaskLeq(a: Task, b: Task) { PriorityRank(a.priority) <= PriorityRank(b.priority) }
  predicate QuestionLeq(a: Question, b: Question) { PriorityRank(a.priority) <= PriorityRank(b.priority) }
  predicate IsActive(t: Task) { t.status != "completed" }
  predicate IsAccepted(d: Decision) { d.status == "accepted" }
  predicate IsOpen(q: Question) { q.status == "open" }

  function SelectTasks(ts: seq<Task>): seq<Task> { StableSort(Filter(IsActive, ts), TaskLeq) }
  function SelectDecisions(ds: seq<Decision>): seq<Decision> { Filter(IsAccepted, ds) }
  function SelectQuestions(qs: seq<Question>): seq<Question> { StableSort(Filter(IsOpen, qs), QuestionLeq) }

  // ----- The blocker map: from each task to the questions added for it, in order

  type BlockerMap = OMap<seq<string>>

  /** The question joins those of the task, if it is not there yet. */
  function AddPair(m: BlockerMap, p: (string, string)): BlockerMap {
    Set(m, p.0, Adjoin(if p.0 in m.at then m.at[p.0] else [], p.1))
  }

  function RecordAll(m: BlockerMap, pairs: seq<(string, string)>): BlockerMap {
    Fold(AddPair, m, pairs)
  }

  lemma RecordOne(m: BlockerMap, pairs: seq<(string, string)>, p: (string, string))
    ensures RecordAll(m, pairs + [p]) == AddPair(RecordAll(m, pairs), p)
  {
    FoldSplit(AddPair, m, pairs, [p]);
    assert Fold(AddPair, Fold(AddPair, m, pairs), [p]) == AddPair(Fold(AddPair, m, pairs), p);
  }

  lemma RecordSplit(m: BlockerMap, a: seq<(string, string)>, b: seq<(string, string)>)
    ensures RecordAll(m, a + b) == RecordAll(RecordAll(m, a), b)
  {
    FoldSplit(AddPair, m, a, b);
  }

  function PairsOfTask(id: string, blockedBy: seq<string>, open: set<string>): seq<(string, string)> {
    if blockedBy == [] then []
    else
      var n := |blockedBy| - 1;
      PairsOfTask(id, blockedBy[..n], open) + if blockedBy[n] in open then [(id, blockedBy[n])] else []
  }

  function TaskPairs(ts: seq<Task>, open: set<string>): seq<(string, string)> {
    if ts == [] then []
    else
      var n := |ts| - 1;
      TaskPairs(ts[..n], open) + PairsOfTask(ts[n].taskId, ts[n].blockedBy, open)
  }

  function PairsOfQuestion(id: string, blocks: seq<string>, known: set<string>): seq<(string, string)> {
    if blocks == [] then []
    else
      var n := |blocks| - 1;
      PairsOfQuestion(id, blocks[..n], known) + if blocks[n] in known then [(blocks[n], id)] else []
  }

  function QuestionPairs(qs: seq<Question>, known: set<string>): seq<(string, string)> {
    if qs == [] then []
    else
      var n := |qs| - 1;
      QuestionPairs(qs[..n], known) + PairsOfQuestion(qs[n].questionId, qs[n].blocksTaskIds, known)
  }

  function QuestionIds(qs: seq<Question>): set<string> {
    set q | q in qs :: q.questionId
  }

  function MapBlockers(ts: seq<Task>, qs: seq<Question>, known: set<string>): BlockerMap {
    RecordAll(Empty(), TaskPairs(ts, QuestionIds(qs)) + QuestionPairs(qs, known))
  }

  /** The ids in order. */
  function SortedIds(m: map<string, seq<string>>, k: string): seq<string> {
    if k in m then StableSort(m[k], StrLe) else []
  }

  function ListBlockers(keys: seq<string>, m: map<string, seq<string>>, tasks: map<string, Task>): seq<Blocker> {
    if keys == [] then []
    else
      var n := |keys| - 1;
      var k := keys[n];
      ListBlockers(keys[..n], m, tasks) +
      if k in tasks then [Blocker(k, tasks[k].title, SortedIds(m, k))] else []
  }

  function Blockers(s: State): seq<Blocker> {
    var m := MapBlockers(SelectTasks(Values(s.tasks)), SelectQuestions(Values(s.questions)), s.tasks.at.Keys);
    ListBlockers(m.keys, m.at, s.tasks.at)
  }

  /** The largest version, or 0 without events. */
  function MaxVersion(events: seq<Event>): int {
    if events == [] then 0
    else
      var n := |events| - 1;
      var before := MaxVersion(events[..n]);
      if n == 0 || before < events[n].version then events[n].version else before
  }

  function HeadOf(projectId: string, s: State, ledgerVersion: int): Head {
    Head(projectId, s.project.name, s.project.goal, s.project.currentFocus, ledgerVersion,
         SelectTasks(Values(s.tasks)), SelectDecisions(Values(s.decisions)), SelectQuestions(Values(s.questions)),
         Blockers(s))
  }

  /** `all_tasks`, read off the objects. */
  method PresentTasks(tasks: Dict<LiveTask>, ghost m: OMap<Task>, ghost lists: set<NoteList>) returns (r: OMap<Task>)
    requires tasks.Valid() && TasksAre(lists, tasks.contents, m)
    ensures r == m
  {
    var items := tasks.Items();
    r := OMap(items.keys, map k | k in items.at :: Present(items.at[k]));
    assert r.at == m.at;
  }

  /** The same over the event objects. */
  method LargestVersion(events: seq<LiveEvent>, ghost vals: seq<Event>, ghost lists: set<NoteList>) returns (v: int)
    requires DenoteAll(lists, events, vals)
    ensures v == MaxVersion(vals)
  {
    v := 0;
    for i := 0 to |events|
      invariant v == MaxVersion(vals[..i])
    {
      assert Denotes(events[i], vals[i]);
      assert vals[..i + 1][..i] == vals[..i];
      if i == 0 || v < events[i].event.version { v := events[i].event.version; }
    }
    assert vals[..|events|] == vals;
  }

  /** `_build_head`, and the second half of `build_projection`. */
  method BuildHead(projectId: string, project: Entry<Project>, tasks: Dict<LiveTask>, decisions: Dict<Decision>,
                   questions: Dict<Question>, events: seq<LiveEvent>, ghost m: OMap<Task>, ghost vals: seq<Event>, ghost lists: set<NoteList>)
    returns (head: Head)
    requires tasks.Valid() && decisions.Valid() && questions.Valid()
    requires TasksAre(lists, tasks.contents, m) && DenoteAll(lists, events, vals)
    ensures head == HeadOf(projectId, State(project.value, m, decisions.contents, questions.contents), MaxVersion(vals))
  {
    var allTasks := PresentTasks(tasks, m, lists);
    var allDecisions := decisions.Items();
    var allQuestions := questions.Items();
    var activeTasks := SelectTasks(Values(allTasks));
    var openQuestions := SelectQuestions(Values(allQuestions));
    var blockers := FindBlockers(activeTasks, openQuestions, allTasks);
    var version := LargestVersion(events, vals, lists);
    head := Head(projectId, project.value.name, project.value.goal, project.value.currentFocus, version,
                 activeTasks, SelectDecisions(Values(allDecisions)), openQuestions, blockers);
  }

  /** The loop over `blocked_by` of one active task. */
  method AddBlockersOf(id: string, blockedBy: seq<string>, open: set<string>, m0: BlockerMap) returns (m: BlockerMap)
    ensures m == RecordAll(m0, PairsOfTask(id, blockedBy, open))
  {
    m := m0;
    for j := 0 to |blockedBy|
      invariant m == RecordAll(m0, PairsOfTask(id, blockedBy[..j], open))
    {
      assert blockedBy[..j + 1][..j] == blockedBy[..j];
      if blockedBy[j] in open {
        RecordOne(m0, PairsOfTask(id, blockedBy[..j], open), (id, blockedBy[j]));
        m := AddPair(m, (id, blockedBy[j]));
      } else {
        assert PairsOfTask(id, blockedBy[..j + 1], open) == PairsOfTask(id, blockedBy[..j], open);
      }
    }
    assert blockedBy[..|blockedBy|] == blockedBy;
  }

  /** The loop over the active tasks. */
  method AddTaskBlockers(activeTasks: seq<Task>, open: set<string>) returns (m: BlockerMap)
    ensures m == RecordAll(Empty(), TaskPairs(activeTasks, open))
  {
    m := Empty();
    for i := 0 to |activeTasks|
      invariant m == RecordAll(Empty(), TaskPairs(activeTasks[..i], open))
    {
      var t := activeTasks[i];
      assert activeTasks[..i + 1][..i] == activeTasks[..i];
      RecordSplit(Empty(), TaskPairs(activeTasks[..i], open), PairsOfTask(t.taskId, t.blockedBy, open));
      m := AddBlockersOf(t.taskId, t.blockedBy, open, m);
    }
    assert activeTasks[..|activeTasks|] == activeTasks;
  }

  /** The loop over `blocks_task_ids` of one open question. */
  method AddBlockedBy(id: string, blocks: seq<string>, known: set<string>, m0: BlockerMap) returns (m: BlockerMap)
    ensures m == RecordAll(m0, PairsOfQuestion(id, blocks, known))
  {
    m := m0;
    for j := 0 to |blocks|
      invariant m == RecordAll(m0, PairsOfQuestion(id, blocks[..j], known))
    {
      assert blocks[..j + 1][..j] == blocks[..j];
      if blocks[j] in known {
        RecordOne(m0, PairsOfQuestion(id, blocks[..j], known), (blocks[j], id));
        m := AddPair(m, (blocks[j], id));
      } else {
        assert PairsOfQuestion(id, blocks[..j + 1], known) == PairsOfQuestion(id, blocks[..j], known);
      }
    }
    assert blocks[..|blocks|] == blocks;
  }

  /** The loop over the open questions. */
  method AddQuestionBlockers(openQuestions: seq<Question>, known: set<string>, m0: BlockerMap) returns (m: BlockerMap)
    ensures m == RecordAll(m0, QuestionPairs(openQuestions, known))
  {
    m := m0;
    for i := 0 to |openQuestions|
      invariant m == RecordAll(m0, QuestionPairs(openQuestions[..i], known))
    {
      var q := openQuestions[i];
      assert openQuestions[..i + 1][..i] == openQuestions[..i];
      RecordSplit(m0, QuestionPairs(openQuestions[..i], known), PairsOfQuestion(q.questionId, q.blocksTaskIds, known));
      m := AddBlockedBy(q.questionId, q.blocksTaskIds, known, m);
    }
    assert openQuestions[..|openQuestions|] == openQuestions;
  }

  /** The blocker loops. */
  method FindBlockers(activeTasks: seq<Task>, openQuestions: seq<Question>, allTasks: OMap<Task>) returns (blockers: seq<Blocker>)
    ensures var m := MapBlockers(activeTasks, openQuestions, allTasks.at.Keys);
            blockers == ListBlockers(m.keys, m.at, allTasks.at)
  {
    var open := QuestionIds(openQuestions);
    var m := AddTaskBlockers(activeTasks, open);
    m := AddQuestionBlockers(openQuestions, allTasks.at.Keys, m);
    RecordSplit(Empty(), TaskPairs(activeTasks, open), QuestionPairs(openQuestions, allTasks.at.Keys));
    blockers := CollectBlockers(m, allTasks);
  }

  /** The loop over the blocker map. */
  method CollectBlockers(m: BlockerMap, allTasks: OMap<Task>) returns (blockers: seq<Blocker>)
    ensures blockers == ListBlockers(m.keys, m.at, allTasks.at)
  {
    blockers := [];
    for i := 0 to |m.keys|
      invariant blockers == ListBlockers(m.keys[..i], m.at, allTasks.at)
    {
      var k := m.keys[i];
      assert m.keys[..i + 1][..i] == m.keys[..i];
      if k in allTasks.at {
        blockers := blockers + [Blocker(k, allTasks.at[k].title, SortedIds(m.at, k))];
      }
    }
    assert m.keys[..|m.keys|] == m.keys;
  }

  // ----- What the blocker list says

  /** An open question blocks a known task: named by the active task, or naming the task. */
  ghost predicate Blocks(s: State, question: string, task: string) {
    && question in s.questions.at && IsOpen(s.questions.at[question])
    && task in s.tasks.at
    && ( (IsActive(s.tasks.at[task]) && question in s.tasks.at[task].blockedBy)
      || task in s.questions.at[question].blocksTaskIds)
  }

  lemma {:induction false} PairsOfTaskExact(id: string, blockedBy: seq<string>, open: set<string>)
    ensures forall p :: p in PairsOfTask(id, blockedBy, open) <==> p.0 == id && p.1 in blockedBy && p.1 in open
  {
    if blockedBy != [] {
      var n := |blockedBy| - 1;
      PairsOfTaskExact(id, blockedBy[..n], open);
      assert blockedBy == blockedBy[..n] + [blockedBy[n]];
    }
  }

  lemma {:induction false} PairsOfQuestionExact(id: string, blocks: seq<string>, known: set<string>)
    ensures forall p :: p in PairsOfQuestion(id, blocks, known) <==> p.1 == id && p.0 in blocks && p.0 in known
  {
    if blocks != [] {
      var n := |blocks| - 1;
      PairsOfQuestionExact(id, blocks[..n], known);
      assert blocks == blocks[..n] + [blocks[n]];
    }
  }

  lemma {:induction false} TaskPairsExact(ts: seq<Task>, open: set<string>)
    ensures forall p :: p in TaskPairs(ts, open) <==>
              p.1 in open && exists t :: t in ts && t.taskId == p.0 && p.1 in t.blockedBy
  {
    if ts != [] {
      var n := |ts| - 1;
      TaskPairsExact(ts[..n], open);
      PairsOfTaskExact(ts[n].taskId, ts[n].blockedBy, open);
      assert ts == ts[..n] + [ts[n]];
    }
  }

  lemma {:induction false} QuestionPairsExact(qs: seq<Question>, known: set<string>)
    ensures forall p :: p in QuestionPairs(qs, known) <==>
              p.0 in known && exists q :: q in qs && q.questionId == p.1 && p.0 in q.blocksTaskIds
  {
    if qs != [] {
      var n := |qs| - 1;
      QuestionPairsExact(qs[..n], known);
      PairsOfQuestionExact(qs[n].questionId, qs[n].blocksTaskIds, known);
      assert qs == qs[..n] + [qs[n]];
    }
  }

  ghost predicate Mentions(pairs: seq<(string, string)>, k: string) {
    exists q :: (k, q) in pairs
  }

  /** The map records exactly the pairs. */
  ghost predicate Records(m: BlockerMap, pairs: seq<(string, string)>) {
    && Consistent(m)
    && (forall k :: k in m.at <==> Mentions(pairs, k))
    && (forall k | k in m.at :: NoDup(m.at[k]))
    && (forall k, q | k in m.at :: q in m.at[k] <==> (k, q) in pairs)
  }

  lemma MentionsMore(pairs: seq<(string, string)>, p: (string, string), k: string)
    ensures Mentions(pairs + [p], k) <==> Mentions(pairs, k) || k == p.0
  {
    if k == p.0 { assert (k, p.1) in pairs + [p]; }
    if Mentions(pairs, k) {
      var x :| (k, x) in pairs;
      assert (k, x) in pairs + [p];
    }
  }

  lemma AddPairRecords(m: BlockerMap, pairs: seq<(string, string)>, p: (string, string))
    requires Records(m, pairs)
    ensures Records(AddPair(m, p), pairs + [p])
  {
    var k, r := p.0, AddPair(m, p);
    var xs := if k in m.at then m.at[k] else [];
    AdjoinNoDup(xs, p.1);
    SetConsistent(m, k, Adjoin(xs, p.1));
    forall j { MentionsMore(pairs, p, j); }
    forall j, q | j in r.at ensures q in r.at[j] <==> (j, q) in pairs + [p] {
      if j == k && k !in m.at { assert !Mentions(pairs, k); }
    }
  }

  lemma BlockerMapMore(pairs: seq<(string, string)>, p: (string, string))
    requires Records(RecordAll(Empty(), pairs), pairs)
    ensures Records(RecordAll(Empty(), pairs + [p]), pairs + [p])
  {
    RecordOne(Empty(), pairs, p);
    AddPairRecords(RecordAll(Empty(), pairs), pairs, p);
  }

  lemma {:induction false} BlockerMapExact(pairs: seq<(string, string)>)
    ensures Records(RecordAll(Empty(), pairs), pairs)
    decreases |pairs|
  {
    if pairs != [] {
      var n := |pairs| - 1;
      assert pairs == pairs[..n] + [pairs[n]];
      BlockerMapExact(pairs[..n]);
      BlockerMapMore(pairs[..n], pairs[n]);
    }
  }

  ghost predicate RendersBlockers(r: seq<Blocker>, keys: seq<string>, m: map<string, seq<string>>, tasks: map<string, Task>) {
    && (forall b | b in r :: b.taskId in keys && b.taskId in tasks
                             && b == Blocker(b.taskId, tasks[b.taskId].title, SortedIds(m, b.taskId)))
    && (forall k | k in keys && k in tasks :: Blocker(k, tasks[k].title, SortedIds(m, k)) in r)
    && (forall i, j | 0 <= i < j < |r| :: r[i].taskId != r[j].taskId)
  }

  lemma {:induction false} ListBlockersExact(keys: seq<string>, m: map<string, seq<string>>, tasks: map<string, Task>)
    requires NoDup(keys)
    ensures RendersBlockers(ListBlockers(keys, m, tasks), keys, m, tasks)
  {
    if keys != [] {
      var n := |keys| - 1;
      ListBlockersExact(keys[..n], m, tasks);
      assert keys == keys[..n] + [keys[n]];
      assert keys[n] !in keys[..n];
    }
  }

  /** An active task with its blocked_by naming an open question. */
  lemma TaskPairsAreBlocks(s: State, t: string, q: string)
    requires Keyed(s)
    ensures (t, q) in TaskPairs(SelectTasks(Values(s.tasks)), QuestionIds(SelectQuestions(Values(s.questions)))) <==>
            OpenId(s, q) && t in s.tasks.at && IsActive(s.tasks.at[t]) && q in s.tasks.at[t].blockedBy
  {
    var ts, qs := SelectTasks(Values(s.tasks)), SelectQuestions(Values(s.questions));
    SelectTasksElements(Values(s.tasks));
    TaskPairsExact(ts, QuestionIds(qs));
    OpenIds(s, q);
    if t in s.tasks.at { InValues(s.tasks, s.tasks.at[t]); }
    if (t, q) in TaskPairs(ts, QuestionIds(qs)) {
      var x :| x in ts && x.taskId == t && q in x.blockedBy;
      InValues(s.tasks, x);
    }
  }

  lemma QuestionPairsAreBlocks(s: State, t: string, q: string)
    requires Keyed(s)
    ensures (t, q) in QuestionPairs(SelectQuestions(Values(s.questions)), s.tasks.at.Keys) <==>
            OpenId(s, q) && t in s.tasks.at && t in s.questions.at[q].blocksTaskIds
  {
    var qs := SelectQuestions(Values(s.questions));
    SelectQuestionsElements(Values(s.questions));
    QuestionPairsExact(qs, s.tasks.at.Keys);
    if OpenId(s, q) { InValues(s.questions, s.questions.at[q]); }
    if (t, q) in QuestionPairs(qs, s.tasks.at.Keys) {
      var x :| x in qs && x.questionId == q && t in x.blocksTaskIds;
      InValues(s.questions, x);
    }
  }

  ghost predicate OpenId(s: State, q: string) {
    q in s.questions.at && IsOpen(s.questions.at[q])
  }

  lemma OpenIds(s: State, q: string)
    requires Keyed(s)
    ensures q in QuestionIds(SelectQuestions(Values(s.questions))) <==> OpenId(s, q)
  {
    var qs := SelectQuestions(Values(s.questions));
    SelectQuestionsElements(Values(s.questions));
    if OpenId(s, q) {
      InValues(s.questions, s.questions.at[q]);
      assert s.questions.at[q] in qs;
    }
    if x :| x in qs && x.questionId == q { InValues(s.questions, x); }
  }

  lemma SelectTasksElements(ts: seq<Task>)
    ensures forall t :: t in SelectTasks(ts) <==> t in ts && IsActive(t)
  {
    SortKeepsElements(Filter(IsActive, ts), TaskLeq);
  }

  lemma SelectQuestionsElements(qs: seq<Question>)
    ensures forall q :: q in SelectQuestions(qs) <==> q in qs && IsOpen(q)
  {
    SortKeepsElements(Filter(IsOpen, qs), QuestionLeq);
  }

  ghost predicate IsBlocked(s: State, task: string) {
    exists q :: Blocks(s, q, task)
  }

  ghost predicate HasEntry(bs: seq<Blocker>, task: string) {
    exists b :: b in bs && b.taskId == task
  }

  /**
   The blocker list has one entry for each known task that an open question blocks, with the
   title of the task and its blocking questions, sorted and without repeats.
   */
  lemma BlockersExact(s: State)
    requires Keyed(s)
    ensures forall t :: HasEntry(Blockers(s), t) <==> IsBlocked(s, t)
    ensures forall i, j | 0 <= i < j < |Blockers(s)| :: Blockers(s)[i].taskId != Blockers(s)[j].taskId
    ensures forall b | b in Blockers(s) ::
              && b.taskId in s.tasks.at && b.taskTitle == s.tasks.at[b.taskId].title
              && Sorted(b.blockedByQuestions, StrLe) && NoDup(b.blockedByQuestions)
              && forall q :: q in b.blockedByQuestions <==> Blocks(s, q, b.taskId)
  {
    var ts, qs := SelectTasks(Values(s.tasks)), SelectQuestions(Values(s.questions));
    var pairs := TaskPairs(ts, QuestionIds(qs)) + QuestionPairs(qs, s.tasks.at.Keys);
    var m := MapBlockers(ts, qs, s.tasks.at.Keys);
    forall t, q ensures (t, q) in pairs <==> Blocks(s, q, t) {
      TaskPairsAreBlocks(s, t, q);
      QuestionPairsAreBlocks(s, t, q);
    }
    BlockerMapExact(pairs);
    ListBlockersExact(m.keys, m.at, s.tasks.at);
    forall t ensures HasEntry(Blockers(s), t) <==> IsBlocked(s, t) {
      if IsBlocked(s, t) {
        var q :| Blocks(s, q, t);
        assert Mentions(pairs, t);
        assert t in m.keys;
        assert Blocker(t, s.tasks.at[t].title, SortedIds(m.at, t)) in Blockers(s);
      }
      if HasEntry(Blockers(s), t) {
        assert Mentions(pairs, t);
      }
    }
    forall b | b in Blockers(s)
      ensures Sorted(b.blockedByQuestions, StrLe) && NoDup(b.blockedByQuestions)
      ensures forall q :: q in b.blockedByQuestions <==> Blocks(s, q, b.taskId)
    {
      StrLeOrder();
      StableSortCorrect(m.at[b.taskId], StrLe);
      SortKeepsElements(m.at[b.taskId], StrLe);
    }
  }
}
