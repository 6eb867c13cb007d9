/**
 The projection platform's reducer as functions of values: delta replay starts from a head, which
 holds active items only, not from full reducer state.
 */
module HeadReduction {
  import opened Wrappers
  import opened OrderedMaps
  import opened Folds
  import opened Heads
  import opened Replay

  // ----- Rebuilding reducer state from a head

  /** Each value in turn put under its id. */
  function Gathered<V>(vs: seq<V>, id: V -> string): OMap<V> {
    if vs == [] then Empty()
    else
      var n := |vs| - 1;
      Set(Gathered(vs[..n], id), id(vs[n]), vs[n])
  }

  function TaskIdOf(t: Task): string { t.taskId }
  function DecisionIdOf(d: Decision): string { d.decisionId }
  function QuestionIdOf(q: Question): string { q.questionId }

  function TasksFrom(ts: seq<Task>): OMap<Task> { Gathered(ts, TaskIdOf) }
  function DecisionsFrom(ds: seq<Decision>): OMap<Decision> { Gathered(ds, DecisionIdOf) }
  function QuestionsFrom(qs: seq<Question>): OMap<Question> { Gathered(qs, QuestionIdOf) }

  function StateFrom(h: Head): State {
    State(Project(h.projectName, h.projectGoal, h.currentFocus, None, ""),
          TasksFrom(h.activeTasks), DecisionsFrom(h.activeDecisions), QuestionsFrom(h.openQuestions))
  }

  /** `reduce` with a head to start from. */
  function ReduceFrom(h: Head, events: seq<Event>): Head {
    if events == [] then h
    else HeadOf(events[0].project, Reduce(StateFrom(h), events), MaxVersion(events))
  }

  /** `reduce` without one. */
  function ReduceFull(events: seq<Event>): Option<Head> {
    if events == [] || !Bootstrapped(events) then None
    else Some(HeadOf(events[0].project, Reduce(Initial, events), MaxVersion(events)))
  }

  /** `part` lacks some entries of `whole` and agrees on the others. */
  ghost predicate Within<V(!new)>(part: OMap<V>, whole: OMap<V>) {
    forall k | k in part.at :: k in whole.at && whole.at[k] == part.at[k]
  }

  lemma {:induction false} GatheredExact<V(!new)>(vs: seq<V>, id: V -> string, m: OMap<V>)
    requires Consistent(m) && forall x | x in vs :: id(x) in m.at && m.at[id(x)] == x
    requires forall k | k in m.at :: id(m.at[k]) == k
    ensures Consistent(Gathered(vs, id)) && Within(Gathered(vs, id), m)
    ensures forall k :: k in Gathered(vs, id).at <==> k in m.at && m.at[k] in vs
  {
    if vs != [] {
      var n := |vs| - 1;
      GatheredExact(vs[..n], id, m);
      assert vs == vs[..n] + [vs[n]];
      SetConsistent(Gathered(vs[..n], id), id(vs[n]), vs[n]);
    }
  }

  lemma TasksFromExact(ts: seq<Task>, m: OMap<Task>)
    requires KeyedTasks(m) && forall x | x in ts :: x.taskId in m.at && m.at[x.taskId] == x
    ensures KeyedTasks(TasksFrom(ts)) && Within(TasksFrom(ts), m)
    ensures forall k :: k in TasksFrom(ts).at <==> k in m.at && m.at[k] in ts
  {
    GatheredExact(ts, TaskIdOf, m);
  }

  lemma DecisionsFromExact(ds: seq<Decision>, m: OMap<Decision>)
    requires KeyedDecisions(m) && forall x | x in ds :: x.decisionId in m.at && m.at[x.decisionId] == x
    ensures KeyedDecisions(DecisionsFrom(ds)) && Within(DecisionsFrom(ds), m)
    ensures forall k :: k in DecisionsFrom(ds).at <==> k in m.at && m.at[k] in ds
  {
    GatheredExact(ds, DecisionIdOf, m);
  }

  lemma QuestionsFromExact(qs: seq<Question>, m: OMap<Question>)
    requires KeyedQuestions(m) && forall x | x in qs :: x.questionId in m.at && m.at[x.questionId] == x
    ensures KeyedQuestions(QuestionsFrom(qs)) && Within(QuestionsFrom(qs), m)
    ensures forall k :: k in QuestionsFrom(qs).at <==> k in m.at && m.at[k] in qs
  {
    GatheredExact(qs, QuestionIdOf, m);
  }

  // ----- Starting from a head without items

  /** The head holds no items; its other fields may be anything. */
  predicate NoItems(h: Head) {
    h.activeTasks == [] && h.activeDecisions == [] && h.openQuestions == []
  }

  /** A field of the project that some event sets does not depend on where the fold starts. */
  lemma {:induction false} FieldsOverwritten(a: Project, b: Project, events: seq<Event>)
    ensures var x, y := Fold(StepProject, a, events), Fold(StepProject, b, events);
            && (a.name == b.name || (exists e | e in events :: e.body.ProjectCreated?) ==> x.name == y.name)
            && (a.goal == b.goal || (exists e | e in events :: e.body.ProjectGoalSet?) ==> x.goal == y.goal)
            && (a.currentFocus == b.currentFocus || (exists e | e in events :: e.body.ProjectFocusChanged?) ==> x.currentFocus == y.currentFocus)
    decreases |events|
  {
    if events != [] {
      FieldsOverwritten(StepProject(a, events[0]), StepProject(b, events[0]), events[1..]);
      assert events == [events[0]] + events[1..];
    }
  }

  /** Reducing a bootstrapped stream onto a head without items is reducing it from nothing. */
  lemma ReduceOntoNoItems(h: Head, events: seq<Event>)
    requires NoItems(h) && Bootstrapped(events)
    ensures ReduceFull(events) == Some(ReduceFrom(h, events))
  {
    FieldsOverwritten(StateFrom(h).project, NewProject, events);
    var a, b := Reduce(StateFrom(h), events), Reduce(Initial, events);
    assert a.tasks == b.tasks && a.decisions == b.decisions && a.questions == b.questions;
    assert Blockers(a) == Blockers(b);
  }
}
