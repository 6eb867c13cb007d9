/**
 Delta replay from a head against full replay. The head keeps the active tasks, the accepted
 decisions and the open questions; the lemmas say exactly which deltas notice what is missing.
 */
module DeltaFromHead {
  import opened Wrappers
  import opened Orders
  import opened OrderedMaps
  import opened Folds
  import opened Heads
  import opened HeadReduction
  import opened Replay
  import Vault

  // ----- What a head shows, by id

  function Actives(m: OMap<Task>): map<string, Task> { map k | k in m.at && IsActive(m.at[k]) :: m.at[k] }
  function Accepteds(m: OMap<Decision>): map<string, Decision> { map k | k in m.at && IsAccepted(m.at[k]) :: m.at[k] }
  function Opens(m: OMap<Question>): map<string, Question> { map k | k in m.at && IsOpen(m.at[k]) :: m.at[k] }

  /** The dict rebuilt from a head holds exactly what the head shows. */
  lemma TasksOfHead(m: OMap<Task>)
    requires KeyedTasks(m)
    ensures var part := TasksFrom(SelectTasks(Values(m)));
            && KeyedTasks(part) && Within(part, m)
            && forall k :: k in part.at <==> k in m.at && IsActive(m.at[k])
  {
    var ts := SelectTasks(Values(m));
    SelectTasksElements(Values(m));
    forall x | x in ts ensures x.taskId in m.at && m.at[x.taskId] == x { InValues(m, x); }
    TasksFromExact(ts, m);
    forall k | k in m.at ensures m.at[k] in ts <==> IsActive(m.at[k]) { InValues(m, m.at[k]); }
  }

  /** The dict rebuilt from a head holds exactly what the head shows. */
  lemma DecisionsOfHead(m: OMap<Decision>)
    requires KeyedDecisions(m)
    ensures var part := DecisionsFrom(SelectDecisions(Values(m)));
            && KeyedDecisions(part) && Within(part, m)
            && forall k :: k in part.at <==> k in m.at && IsAccepted(m.at[k])
  {
    var ds := SelectDecisions(Values(m));
    forall x | x in ds ensures x.decisionId in m.at && m.at[x.decisionId] == x { InValues(m, x); }
    DecisionsFromExact(ds, m);
    forall k | k in m.at ensures m.at[k] in ds <==> IsAccepted(m.at[k]) { InValues(m, m.at[k]); }
  }

  /** The dict rebuilt from a head holds exactly what the head shows. */
  lemma QuestionsOfHead(m: OMap<Question>)
    requires KeyedQuestions(m)
    ensures var part := QuestionsFrom(SelectQuestions(Values(m)));
            && KeyedQuestions(part) && Within(part, m)
            && forall k :: k in part.at <==> k in m.at && IsOpen(m.at[k])
  {
    var qs := SelectQuestions(Values(m));
    SelectQuestionsElements(Values(m));
    forall x | x in qs ensures x.questionId in m.at && m.at[x.questionId] == x { InValues(m, x); }
    QuestionsFromExact(qs, m);
    forall k | k in m.at ensures m.at[k] in qs <==> IsOpen(m.at[k]) { InValues(m, m.at[k]); }
  }

  // ----- Tasks

  /** The delta creates the task (again). */
  ghost predicate Creates(delta: seq<Event>, k: string) {
    exists e :: e in delta && e.body.TaskCreated? && e.body.taskId == k
  }

  /** The last status among the items of a TASK_MUTATED payload. */
  function LastStatusIn(us: seq<FieldUpdate>): Option<string> {
    if us == [] then None
    else
      var n := |us| - 1;
      if us[n].SetStatus? then Some(us[n].s) else LastStatusIn(us[..n])
  }

  /** The last status that the delta assigns to the task. */
  function LastStatus(delta: seq<Event>, k: string): Option<string> {
    if delta == [] then None
    else
      var n := |delta| - 1;
      match delta[n].body
      case TaskMutated(id, us) =>
        if id == k && LastStatusIn(us).Some? then LastStatusIn(us) else LastStatus(delta[..n], k)
      case TaskCompleted(id) => if id == k then Some("completed") else LastStatus(delta[..n], k)
      case _ => LastStatus(delta[..n], k)
  }

  /** The delta gives a completed task another status, last of all, without creating it again. */
  ghost predicate Revives(m: OMap<Task>, delta: seq<Event>, k: string) {
    && k in m.at && !IsActive(m.at[k]) && !Creates(delta, k)
    && LastStatus(delta, k).Some? && LastStatus(delta, k).value != "completed"
  }

  lemma {:induction false} StatusAfterUpdates(t: Task, us: seq<FieldUpdate>)
    ensures Fold(ApplyUpdate, t, us).status == LastStatusIn(us).GetOr(t.status)
  {
    if us != [] {
      var n := |us| - 1;
      StatusAfterUpdates(t, us[..n]);
      FoldSnoc(ApplyUpdate, t, us, n);
      assert us[..n + 1] == us;
    }
  }

  lemma CreatesSnoc(delta: seq<Event>, e: Event, k: string)
    ensures Creates(delta + [e], k) <==> Creates(delta, k) || (e.body.TaskCreated? && e.body.taskId == k)
  {
    if Creates(delta, k) {
      var x :| x in delta && x.body.TaskCreated? && x.body.taskId == k;
      assert x in delta + [e];
    }
    if e.body.TaskCreated? && e.body.taskId == k { assert e in delta + [e]; }
  }

  /** A task that a delta does not create keeps its place in the map, with the last status assigned. */
  lemma {:induction false} StatusAfterDelta(m: OMap<Task>, delta: seq<Event>, k: string)
    requires k != "" && !Creates(delta, k)
    ensures var after := FoldTasks(m, delta);
            && (k in after.at <==> k in m.at)
            && (k in m.at ==> after.at[k].status == LastStatus(delta, k).GetOr(m.at[k].status))
    decreases |delta|
  {
    if delta != [] {
      var n := |delta| - 1;
      var e := delta[n];
      assert delta == delta[..n] + [e] == delta[..n + 1];
      CreatesSnoc(delta[..n], e, k);
      StatusAfterDelta(m, delta[..n], k);
      FoldSnoc(StepTasks, m, delta, n);
      var before := FoldTasks(m, delta[..n]);
      if e.body.TaskMutated? && k in before.at { StatusAfterUpdates(before.at[k], e.body.updates); }
    }
  }

  /** Running the delta on both keeps the part within the whole; only creation closes the gap. */
  lemma {:induction false} TasksStayWithin(part: OMap<Task>, whole: OMap<Task>, delta: seq<Event>)
    requires Within(part, whole)
    ensures Within(FoldTasks(part, delta), FoldTasks(whole, delta))
    ensures forall k :: k in FoldTasks(part, delta).at <==> k in part.at || (k != "" && Creates(delta, k))
    decreases |delta|
  {
    if delta != [] {
      var n := |delta| - 1;
      var e := delta[n];
      assert delta == delta[..n] + [e] == delta[..n + 1];
      TasksStayWithin(part, whole, delta[..n]);
      FoldSnoc(StepTasks, part, delta, n);
      FoldSnoc(StepTasks, whole, delta, n);
      forall k ensures Creates(delta, k) <==> Creates(delta[..n], k) || (e.body.TaskCreated? && e.body.taskId == k) {
        CreatesSnoc(delta[..n], e, k);
      }
    }
  }

  lemma {:induction false} NoEmptyTask(m: OMap<Task>, delta: seq<Event>)
    requires "" !in m.at
    ensures "" !in FoldTasks(m, delta).at
    decreases |delta|
  {
    if delta != [] { NoEmptyTask(StepTasks(m, delta[0]), delta[1..]); }
  }

  /** What full replay has and the head's replay lacks: tasks completed before; active again if revived. */
  lemma MissingTasks(m: OMap<Task>, delta: seq<Event>, k: string)
    requires KeyedTasks(m) && "" !in m.at
    ensures var a, b := FoldTasks(TasksFrom(SelectTasks(Values(m))), delta), FoldTasks(m, delta);
            (k in b.at && k !in a.at && IsActive(b.at[k])) <==> Revives(m, delta, k)
  {
    TasksOfHead(m);
    TasksStayWithin(TasksFrom(SelectTasks(Values(m))), m, delta);
    NoEmptyTask(m, delta);
    if k != "" && !Creates(delta, k) { StatusAfterDelta(m, delta, k); }
  }

  /**
   Delta replay from the head shows the active tasks of full replay exactly when the delta revives
   no completed task.
   */
  lemma ActiveTasksExact(m: OMap<Task>, delta: seq<Event>)
    requires KeyedTasks(m) && "" !in m.at
    ensures Actives(FoldTasks(TasksFrom(SelectTasks(Values(m))), delta)) == Actives(FoldTasks(m, delta)) <==>
            forall k :: !Revives(m, delta, k)
  {
    var part := TasksFrom(SelectTasks(Values(m)));
    TasksOfHead(m);
    TasksStayWithin(part, m, delta);
    var a, b := FoldTasks(part, delta), FoldTasks(m, delta);
    forall k { MissingTasks(m, delta, k); }
    if k :| Revives(m, delta, k) {
      assert k in Actives(b) && k !in Actives(a);
    } else {
      assert forall k :: k in Actives(b) <==> k in Actives(a);
    }
  }

  // ----- Decisions

  ghost predicate Proposes(delta: seq<Event>, k: string) {
    exists e :: e in delta && e.body.DecisionProposed? && e.body.decisionId == k
  }

  /** The last verdict of the delta on the decision: accepted (true) or superseded. */
  function LastVerdict(delta: seq<Event>, k: string): Option<bool> {
    if delta == [] then None
    else
      var n := |delta| - 1;
      match delta[n].body
      case DecisionAccepted(id) => if id == k then Some(true) else LastVerdict(delta[..n], k)
      case DecisionSuperseded(id, _) => if id == k then Some(false) else LastVerdict(delta[..n], k)
      case _ => LastVerdict(delta[..n], k)
  }

  /** The delta accepts, last of all, a known decision that the head lacks, without proposing it again. */
  ghost predicate AcceptsMissing(m: OMap<Decision>, delta: seq<Event>, k: string) {
    k in m.at && !IsAccepted(m.at[k]) && !Proposes(delta, k) && LastVerdict(delta, k) == Some(true)
  }

  lemma ProposesSnoc(delta: seq<Event>, e: Event, k: string)
    ensures Proposes(delta + [e], k) <==> Proposes(delta, k) || (e.body.DecisionProposed? && e.body.decisionId == k)
  {
    if Proposes(delta, k) {
      var x :| x in delta && x.body.DecisionProposed? && x.body.decisionId == k;
      assert x in delta + [e];
    }
    if e.body.DecisionProposed? && e.body.decisionId == k { assert e in delta + [e]; }
  }

  lemma {:induction false} VerdictAfterDelta(m: OMap<Decision>, delta: seq<Event>, k: string)
    requires k != "" && !Proposes(delta, k)
    ensures var after := FoldDecisions(m, delta);
            && (k in after.at <==> k in m.at)
            && (k in m.at ==> (IsAccepted(after.at[k]) <==> LastVerdict(delta, k).GetOr(IsAccepted(m.at[k]))))
    decreases |delta|
  {
    if delta != [] {
      var n := |delta| - 1;
      var e := delta[n];
      assert delta == delta[..n] + [e] == delta[..n + 1];
      ProposesSnoc(delta[..n], e, k);
      VerdictAfterDelta(m, delta[..n], k);
      FoldSnoc(StepDecisions, m, delta, n);
    }
  }

  lemma DecisionStepWithin(part: OMap<Decision>, whole: OMap<Decision>, e: Event)
    requires Within(part, whole)
    ensures Within(StepDecisions(part, e), StepDecisions(whole, e))
    ensures forall k :: k in StepDecisions(part, e).at <==>
              k in part.at || (k != "" && e.body.DecisionProposed? && e.body.decisionId == k)
  {
  }

  lemma {:induction false} DecisionsStayWithin(part: OMap<Decision>, whole: OMap<Decision>, delta: seq<Event>)
    requires Within(part, whole)
    ensures Within(FoldDecisions(part, delta), FoldDecisions(whole, delta))
    ensures forall k :: k in FoldDecisions(part, delta).at <==> k in part.at || (k != "" && Proposes(delta, k))
    decreases |delta|
  {
    if delta != [] {
      var n := |delta| - 1;
      var e := delta[n];
      assert delta == delta[..n] + [e] == delta[..n + 1];
      DecisionsStayWithin(part, whole, delta[..n]);
      FoldSnoc(StepDecisions, part, delta, n);
      FoldSnoc(StepDecisions, whole, delta, n);
      DecisionStepWithin(FoldDecisions(part, delta[..n]), FoldDecisions(whole, delta[..n]), e);
      forall k ensures Proposes(delta, k) <==> Proposes(delta[..n], k) || (e.body.DecisionProposed? && e.body.decisionId == k) {
        ProposesSnoc(delta[..n], e, k);
      }
    }
  }

  lemma {:induction false} NoEmptyDecision(m: OMap<Decision>, delta: seq<Event>)
    requires "" !in m.at
    ensures "" !in FoldDecisions(m, delta).at
    decreases |delta|
  {
    if delta != [] { NoEmptyDecision(StepDecisions(m, delta[0]), delta[1..]); }
  }

  lemma MissingDecisions(m: OMap<Decision>, delta: seq<Event>, k: string)
    requires KeyedDecisions(m) && "" !in m.at
    ensures var a, b := FoldDecisions(DecisionsFrom(SelectDecisions(Values(m))), delta), FoldDecisions(m, delta);
            (k in b.at && k !in a.at && IsAccepted(b.at[k])) <==> AcceptsMissing(m, delta, k)
  {
    DecisionsOfHead(m);
    DecisionsStayWithin(DecisionsFrom(SelectDecisions(Values(m))), m, delta);
    NoEmptyDecision(m, delta);
    if k != "" && !Proposes(delta, k) { VerdictAfterDelta(m, delta, k); }
  }

  /**
   Delta replay from the head shows the accepted decisions of full replay exactly when the delta
   accepts no known decision that the head lacks.
   */
  lemma AcceptedDecisionsExact(m: OMap<Decision>, delta: seq<Event>)
    requires KeyedDecisions(m) && "" !in m.at
    ensures Accepteds(FoldDecisions(DecisionsFrom(SelectDecisions(Values(m))), delta)) == Accepteds(FoldDecisions(m, delta)) <==>
            forall k :: !AcceptsMissing(m, delta, k)
  {
    var part := DecisionsFrom(SelectDecisions(Values(m)));
    DecisionsOfHead(m);
    DecisionsStayWithin(part, m, delta);
    var a, b := FoldDecisions(part, delta), FoldDecisions(m, delta);
    forall k { MissingDecisions(m, delta, k); }
    if k :| AcceptsMissing(m, delta, k) {
      assert k in Accepteds(b) && k !in Accepteds(a);
    } else {
      assert forall k :: k in Accepteds(b) <==> k in Accepteds(a);
    }
  }

  // ----- Questions

  /** Questions that the part lacks are resolved, and stay so: no event reopens one without raising it. */
  ghost predicate LacksOnlyResolved(part: OMap<Question>, whole: OMap<Question>) {
    Within(part, whole) && forall k | k in whole.at && k !in part.at :: !IsOpen(whole.at[k])
  }

  lemma {:induction false} QuestionsStayWithin(part: OMap<Question>, whole: OMap<Question>, delta: seq<Event>)
    requires LacksOnlyResolved(part, whole)
    ensures LacksOnlyResolved(FoldQuestions(part, delta), FoldQuestions(whole, delta))
    decreases |delta|
  {
    if delta != [] {
      QuestionsStayWithin(StepQuestions(part, delta[0]), StepQuestions(whole, delta[0]), delta[1..]);
    }
  }

  /** Delta replay from the head shows the open questions of full replay, whatever the delta. */
  lemma OpenQuestionsAgree(m: OMap<Question>, delta: seq<Event>)
    requires KeyedQuestions(m)
    ensures Opens(FoldQuestions(QuestionsFrom(SelectQuestions(Values(m))), delta)) == Opens(FoldQuestions(m, delta))
  {
    QuestionsOfHead(m);
    QuestionsStayWithin(QuestionsFrom(SelectQuestions(Values(m))), m, delta);
  }

  // ----- The two heads

  /** The same items, in whatever order. */
  ghost predicate SameItems<T(!new)>(xs: seq<T>, ys: seq<T>) {
    forall x :: x in xs <==> x in ys
  }

  /** The list has exactly the values of the map, whose keys are their ids. */
  ghost predicate ShowsExactly<T(!new)>(xs: seq<T>, m: map<string, T>, id: T -> string) {
    && (forall k | k in m :: id(m[k]) == k && m[k] in xs)
    && (forall x | x in xs :: id(x) in m && m[id(x)] == x)
  }

  lemma SameListing<T(!new)>(xs: seq<T>, ys: seq<T>, a: map<string, T>, b: map<string, T>, id: T -> string)
    requires ShowsExactly(xs, a, id) && ShowsExactly(ys, b, id)
    ensures SameItems(xs, ys) <==> a == b
  {
    if SameItems(xs, ys) {
      assert forall k | k in a :: k in b && b[k] == a[k];
      assert forall k | k in b :: k in a;
      assert a == b;
    }
  }

  lemma TasksListed(m: OMap<Task>)
    requires KeyedTasks(m)
    ensures ShowsExactly(SelectTasks(Values(m)), Actives(m), TaskIdOf)
  {
    SelectTasksElements(Values(m));
    forall t ensures t in Values(m) <==> t.taskId in m.at && m.at[t.taskId] == t { InValues(m, t); }
  }

  lemma DecisionsListed(m: OMap<Decision>)
    requires KeyedDecisions(m)
    ensures ShowsExactly(SelectDecisions(Values(m)), Accepteds(m), DecisionIdOf)
  {
    forall d ensures d in Values(m) <==> d.decisionId in m.at && m.at[d.decisionId] == d { InValues(m, d); }
  }

  lemma QuestionsListed(m: OMap<Question>)
    requires KeyedQuestions(m)
    ensures ShowsExactly(SelectQuestions(Values(m)), Opens(m), QuestionIdOf)
  {
    SelectQuestionsElements(Values(m));
    forall q ensures q in Values(m) <==> q.questionId in m.at && m.at[q.questionId] == q { InValues(m, q); }
  }

  lemma SameLists(a: State, b: State)
    requires Keyed(a) && Keyed(b)
    ensures SameItems(SelectTasks(Values(a.tasks)), SelectTasks(Values(b.tasks))) <==> Actives(a.tasks) == Actives(b.tasks)
    ensures SameItems(SelectDecisions(Values(a.decisions)), SelectDecisions(Values(b.decisions))) <==> Accepteds(a.decisions) == Accepteds(b.decisions)
    ensures SameItems(SelectQuestions(Values(a.questions)), SelectQuestions(Values(b.questions))) <==> Opens(a.questions) == Opens(b.questions)
  {
    TasksListed(a.tasks);
    TasksListed(b.tasks);
    SameListing(SelectTasks(Values(a.tasks)), SelectTasks(Values(b.tasks)), Actives(a.tasks), Actives(b.tasks), TaskIdOf);
    DecisionsListed(a.decisions);
    DecisionsListed(b.decisions);
    SameListing(SelectDecisions(Values(a.decisions)), SelectDecisions(Values(b.decisions)), Accepteds(a.decisions), Accepteds(b.decisions), DecisionIdOf);
    QuestionsListed(a.questions);
    QuestionsListed(b.questions);
    SameListing(SelectQuestions(Values(a.questions)), SelectQuestions(Values(b.questions)), Opens(a.questions), Opens(b.questions), QuestionIdOf);
  }

  /** With the same active tasks and open questions, the blockers of active tasks are the same. */
  lemma SameBlockers(a: State, b: State, x: Blocker)
    requires Keyed(a) && Keyed(b)
    requires Actives(a.tasks) == Actives(b.tasks) && Opens(a.questions) == Opens(b.questions)
    requires x in Blockers(a) && x.taskId in Actives(a.tasks)
    ensures x in Blockers(b)
  {
    BlockersExact(a);
    BlockersExact(b);
    forall q ensures Blocks(a, q, x.taskId) <==> Blocks(b, q, x.taskId) {
      assert q in Opens(a.questions) <==> q in Opens(b.questions);
      assert Actives(a.tasks)[x.taskId] == Actives(b.tasks)[x.taskId];
    }
    assert HasEntry(Blockers(a), x.taskId);
    assert IsBlocked(b, x.taskId);
    var y :| y in Blockers(b) && y.taskId == x.taskId;
    SetMultiset(x.blockedByQuestions, y.blockedByQuestions);
    StrLeOrder();
    SortedUnique(x.blockedByQuestions, y.blockedByQuestions, StrLe);
    assert Actives(a.tasks)[x.taskId] == Actives(b.tasks)[x.taskId];
    assert x == y;
  }

  ghost predicate SameTaskBlockers(xs: seq<Blocker>, ys: seq<Blocker>, tasks: seq<Task>) {
    forall b: Blocker, t | t in tasks && b.taskId == t.taskId :: b in xs <==> b in ys
  }

  lemma BlockersAgree(a: State, b: State)
    requires Keyed(a) && Keyed(b)
    requires Actives(a.tasks) == Actives(b.tasks) && Opens(a.questions) == Opens(b.questions)
    ensures SameTaskBlockers(Blockers(a), Blockers(b), SelectTasks(Values(b.tasks)))
  {
    TasksListed(b.tasks);
    forall x: Blocker, t | t in SelectTasks(Values(b.tasks)) && x.taskId == t.taskId ensures x in Blockers(a) <==> x in Blockers(b) {
      assert TaskIdOf(t) in Actives(b.tasks);
      if x in Blockers(a) { SameBlockers(a, b, x); }
      if x in Blockers(b) { SameBlockers(b, a, x); }
    }
  }

  lemma HeadStates(s: State, delta: seq<Event>, version: int, project: string)
    requires Keyed(s)
    ensures var h := HeadOf(project, s, version);
            var a, b := Reduce(StateFrom(h), delta), Reduce(s, delta);
            && Keyed(a) && Keyed(b)
            && Opens(a.questions) == Opens(b.questions)
            && Vault.SameHeadFields(a.project, b.project)
  {
    var h := HeadOf(project, s, version);
    TasksOfHead(s.tasks);
    DecisionsOfHead(s.decisions);
    QuestionsOfHead(s.questions);
    ReduceKeyed(StateFrom(h), delta);
    ReduceKeyed(s, delta);
    OpenQuestionsAgree(s.questions, delta);
    Vault.ProjectFoldAgrees(StateFrom(h).project, s.project, delta);
  }

  /**
   Replaying a delta from the head of a base stream, against replaying base + delta in full: the
   project fields and the open questions are the same; the active tasks and the accepted decisions
   are the same exactly when the delta touches no missing item as described; and if the active
   tasks are the same, so are their blockers.
   */
  lemma HeadDeltaExact(base: seq<Event>, delta: seq<Event>)
    requires base != [] && Bootstrapped(base)
    ensures ReduceFull(base).Some? && ReduceFull(base + delta).Some?
    ensures var s := Reduce(Initial, base);
            var viaHead, full := ReduceFrom(ReduceFull(base).value, delta), ReduceFull(base + delta).value;
            && viaHead.projectName == full.projectName && viaHead.projectGoal == full.projectGoal
            && viaHead.currentFocus == full.currentFocus
            && SameItems(viaHead.openQuestions, full.openQuestions)
            && (SameItems(viaHead.activeTasks, full.activeTasks) <==> forall k :: !Revives(s.tasks, delta, k))
            && (SameItems(viaHead.activeDecisions, full.activeDecisions) <==> forall k :: !AcceptsMissing(s.decisions, delta, k))
            && (SameItems(viaHead.activeTasks, full.activeTasks) ==>
                  SameTaskBlockers(viaHead.blockers, full.blockers, full.activeTasks))
  {
    var s := Reduce(Initial, base);
    Vault.BootstrappedMore(base, delta);
    ReduceSplit(Initial, base, delta);
    ReduceKeyed(Initial, base);
    NoEmptyTask(Empty(), base);
    NoEmptyDecision(Empty(), base);
    var h := ReduceFull(base).value;
    var a, b := if delta == [] then s else Reduce(StateFrom(h), delta), Reduce(s, delta);
    HeadStates(s, delta, h.ledgerVersion, h.projectId);
    ActiveTasksExact(s.tasks, delta);
    AcceptedDecisionsExact(s.decisions, delta);
    SameLists(a, b);
    if Actives(a.tasks) == Actives(b.tasks) { BlockersAgree(a, b); }
  }

  lemma ReopenRevives(m: OMap<Task>, e: Event)
    requires "t" in m.at && m.at["t"].status == "completed"
    requires e.body == TaskMutated("t", [SetStatus("open")])
    ensures Revives(m, [e], "t")
  {
    var us := [SetStatus("open")];
    assert us[|us| - 1].SetStatus?;
    assert LastStatusIn(us) == Some("open");
    assert [e][|[e]| - 1] == e;
  }

  /** A completed task reopened by the delta: full replay shows it, replay from the head does not. */
  lemma ReopenedTaskIsLost(base: seq<Event>, e: Event)
    requires |base| == 5 && forall i | 0 <= i < 5 :: base[i].body == Vault.Bodies[i]
    requires e.body == TaskMutated("t", [SetStatus("open")])
    ensures Bootstrapped(base) && ReduceFull(base + [e]).Some?
    ensures !SameItems(ReduceFrom(ReduceFull(base).value, [e]).activeTasks, ReduceFull(base + [e]).value.activeTasks)
  {
    Vault.CompletedTaskIsStored(base);
    ReopenRevives(FoldTasks(Empty(), base), e);
    BodiesBootstrap(base);
    HeadDeltaExact(base, [e]);
  }

  const ProposalBodies: seq<Body> := [
    ProjectCreated(None), ProjectGoalSet(None), ProjectFocusChanged(None), DecisionProposed("d", None, None, None, None, None)]

  lemma ProposedIsKnown(base: seq<Event>)
    requires |base| == 4 && forall i | 0 <= i < 4 :: base[i].body == ProposalBodies[i]
    ensures var m := FoldDecisions(Empty(), base); "d" in m.at && m.at["d"].status == "proposed"
    ensures Bootstrapped(base)
  {
    FoldSnoc(StepDecisions, Empty(), base, 0);
    FoldSnoc(StepDecisions, Empty(), base, 1);
    FoldSnoc(StepDecisions, Empty(), base, 2);
    FoldSnoc(StepDecisions, Empty(), base, 3);
    assert base[..4] == base;
    assert base[0].body == ProposalBodies[0] && base[1].body == ProposalBodies[1] && base[2].body == ProposalBodies[2];
    assert base[0] in base && base[1] in base && base[2] in base;
  }

  /** The ordinary life of a decision, cut between its two events: the head lacks it for good. */
  lemma AcceptedDecisionIsLost(base: seq<Event>, e: Event)
    requires |base| == 4 && forall i | 0 <= i < 4 :: base[i].body == ProposalBodies[i]
    requires e.body == DecisionAccepted("d")
    ensures Bootstrapped(base) && ReduceFull(base + [e]).Some?
    ensures !SameItems(ReduceFrom(ReduceFull(base).value, [e]).activeDecisions, ReduceFull(base + [e]).value.activeDecisions)
  {
    ProposedIsKnown(base);
    assert [e][|[e]| - 1] == e;
    assert AcceptsMissing(FoldDecisions(Empty(), base), [e], "d");
    HeadDeltaExact(base, [e]);
  }

  lemma BodiesBootstrap(base: seq<Event>)
    requires |base| == 5 && forall i | 0 <= i < 5 :: base[i].body == Vault.Bodies[i]
    ensures Bootstrapped(base)
  {
    assert base[0].body == Vault.Bodies[0] && base[1].body == Vault.Bodies[1] && base[2].body == Vault.Bodies[2];
    assert base[0] in base && base[1] in base && base[2] in base;
  }
}
