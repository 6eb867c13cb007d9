/**
 Events, and the four reducers as pure folds: the meaning that the in-place reducers of
 module Reducers are proved against.
 */
module Folds {
  import opened Wrappers
  import opened OrderedMaps

  // ----- States of the four reducers

  datatype Project = Project(
    name: string, goal: string, currentFocus: string, createdAt: Option<string>, createdBy: string)

  datatype Note = Note(note: string, timestamp: Option<string>, actor: string, sourceEventSeq: int)

  datatype Task = Task(
    taskId: string, title: string, description: string, status: string, assignee: Option<string>,
    priority: string, tags: seq<string>, blockedBy: seq<string>,
    createdAt: Option<string>, updatedAt: Option<string>, completedAt: Option<string>,
    createdBy: string, progressNotes: seq<Note>, relatedKnowledgeIds: seq<string>)

  datatype Decision = Decision(
    decisionId: string, title: string, description: string, status: string, rationale: string,
    context: string, category: string, supersededBy: Option<string>,
    createdAt: Option<string>, acceptedAt: Option<string>, createdBy: string)

  datatype Question = Question(
    questionId: string, title: string, description: string, status: string, priority: string,
    resolution: Option<string>, blocksTaskIds: seq<string>,
    raisedAt: Option<string>, resolvedAt: Option<string>, raisedBy: string)

  // ----- Events

  /** One item of a TASK_MUTATED payload: the key, with its value when the key is a field. */
  datatype FieldUpdate =
    | SetTitle(s: string)
    | SetDescription(s: string)
    | SetStatus(s: string)
    | SetAssignee(o: Option<string>)
    | SetPriority(s: string)
    | SetTags(l: seq<string>)
    | SetBlockedBy(l: seq<string>)
    | SetCreatedAt(o: Option<string>)
    | SetUpdatedAt(o: Option<string>)
    | SetCompletedAt(o: Option<string>)
    | SetCreatedBy(s: string)
    | SetProgressNotes(n: seq<Note>)
    | SetRelatedKnowledgeIds(l: seq<string>)
    | TaskIdOrUnknownKey

  /** Event type and payload. An optional payload key is an Option; a missing id is "". */
  datatype Body =
    | ProjectCreated(name: Option<string>)
    | ProjectGoalSet(goal: Option<string>)
    | ProjectFocusChanged(focus: Option<string>)
    | TaskCreated(taskId: string, summary: string, body: string, assignee: Option<string>,
                  priority: Option<string>, tags: Option<seq<string>>, blockedBy: Option<seq<string>>)
    | TaskMutated(taskId: string, updates: seq<FieldUpdate>)
    | TaskCompleted(taskId: string)
    | TaskProgressNoted(taskId: string, note: Option<string>)
    | DecisionProposed(decisionId: string, title: Option<string>, description: Option<string>,
                       rationale: Option<string>, context: Option<string>, category: Option<string>)
    | DecisionAccepted(decisionId: string)
    | DecisionSuperseded(decisionId: string, supersededBy: Option<string>)
    | QuestionRaised(questionId: string, title: Option<string>, description: Option<string>,
                     priority: Option<string>, blocksTaskIds: Option<seq<string>>)
    | QuestionResolved(questionId: string, resolution: Option<string>)
    | OtherType

  datatype Event = Event(
    sequence: int, project: string, version: int, actor: string, recordedAt: Option<string>, body: Body)

  // ----- One step of each reducer

  function StepProject(s: Project, e: Event): Project {
    match e.body
    case ProjectCreated(name) => s.(name := name.GetOr(""), createdAt := e.recordedAt, createdBy := e.actor)
    case ProjectGoalSet(goal) => s.(goal := goal.GetOr(""))
    case ProjectFocusChanged(focus) => s.(currentFocus := focus.GetOr(""))
    case _ => s
  }

  function ApplyUpdate(t: Task, u: FieldUpdate): Task {
    match u
    case SetTitle(s) => t.(title := s)
    case SetDescription(s) => t.(description := s)
    case SetStatus(s) => t.(status := s)
    case SetAssignee(o) => t.(assignee := o)
    case SetPriority(s) => t.(priority := s)
    case SetTags(l) => t.(tags := l)
    case SetBlockedBy(l) => t.(blockedBy := l)
    case SetCreatedAt(o) => t.(createdAt := o)
    case SetUpdatedAt(o) => t.(updatedAt := o)
    case SetCompletedAt(o) => t.(completedAt := o)
    case SetCreatedBy(s) => t.(createdBy := s)
    case SetProgressNotes(n) => t.(progressNotes := n)
    case SetRelatedKnowledgeIds(l) => t.(relatedKnowledgeIds := l)
    case TaskIdOrUnknownKey => t
  }

  function NewTask(e: Event): Task
    requires e.body.TaskCreated?
  {
    Task(e.body.taskId, e.body.summary, e.body.body, "open", e.body.assignee, e.body.priority.GetOr("normal"),
         e.body.tags.GetOr([]), e.body.blockedBy.GetOr([]), e.recordedAt, None, None, e.actor, [], [])
  }

  function NewNote(e: Event): Note
    requires e.body.TaskProgressNoted?
  {
    Note(e.body.note.GetOr(""), e.recordedAt, e.actor, e.sequence)
  }

  /** What an event does to the task that it names, once the task is known. */
  function TouchTask(t: Task, e: Event): Task {
    match e.body
    case TaskMutated(_, updates) => Fold(ApplyUpdate, t, updates).(updatedAt := e.recordedAt)
    case TaskCompleted(_) => t.(status := "completed", completedAt := e.recordedAt)
    case TaskProgressNoted(_, _) => t.(progressNotes := t.progressNotes + [NewNote(e)])
    case _ => t
  }

  /** The task an event updates (not creates), or "". */
  function TaskTouched(e: Event): string {
    match e.body
    case TaskMutated(id, _) => id
    case TaskCompleted(id) => id
    case TaskProgressNoted(id, _) => id
    case _ => ""
  }

  function StepTasks(m: OMap<Task>, e: Event): OMap<Task> {
    if e.body.TaskCreated? then
      if e.body.taskId == "" then m else Set(m, e.body.taskId, NewTask(e))
    else
      var id := TaskTouched(e);
      if id == "" || id !in m.at then m else Set(m, id, TouchTask(m.at[id], e))
  }

  function NewDecision(e: Event): Decision
    requires e.body.DecisionProposed?
  {
    Decision(e.body.decisionId, e.body.title.GetOr(""), e.body.description.GetOr(""), "proposed",
             e.body.rationale.GetOr(""), e.body.context.GetOr(""), e.body.category.GetOr("general"),
             None, e.recordedAt, None, e.actor)
  }

  function StepDecisions(m: OMap<Decision>, e: Event): OMap<Decision> {
    match e.body
    case DecisionProposed(id, _, _, _, _, _) => if id == "" then m else Set(m, id, NewDecision(e))
    case DecisionAccepted(id) =>
      if id == "" || id !in m.at then m
      else Set(m, id, m.at[id].(status := "accepted", acceptedAt := e.recordedAt))
    case DecisionSuperseded(id, successor) =>
      if id == "" || id !in m.at then m
      else Set(m, id, m.at[id].(status := "superseded", supersededBy := successor))
    case _ => m
  }

  function NewQuestion(e: Event): Question
    requires e.body.QuestionRaised?
  {
    Question(e.body.questionId, e.body.title.GetOr(""), e.body.description.GetOr(""), "open",
             e.body.priority.GetOr("normal"), None, e.body.blocksTaskIds.GetOr([]), e.recordedAt, None, e.actor)
  }

  function StepQuestions(m: OMap<Question>, e: Event): OMap<Question> {
    match e.body
    case QuestionRaised(id, _, _, _, _) => if id == "" then m else Set(m, id, NewQuestion(e))
    case QuestionResolved(id, resolution) =>
      if id == "" || id !in m.at then m
      else Set(m, id, m.at[id].(status := "resolved", resolution := Some(resolution.GetOr("")), resolvedAt := e.recordedAt))
    case _ => m
  }

  // ----- The four reducers together

  datatype State = State(project: Project, tasks: OMap<Task>, decisions: OMap<Decision>, questions: OMap<Question>)

  const NewProject := Project("", "", "", None, "")

  const Initial := State(NewProject, Empty(), Empty(), Empty())

  function FoldTasks(m: OMap<Task>, events: seq<Event>): OMap<Task> { Fold(StepTasks, m, events) }
  function FoldDecisions(m: OMap<Decision>, events: seq<Event>): OMap<Decision> { Fold(StepDecisions, m, events) }
  function FoldQuestions(m: OMap<Question>, events: seq<Event>): OMap<Question> { Fold(StepQuestions, m, events) }

  /** All four reducers, started from the state `s`. */
  function Reduce(s: State, events: seq<Event>): State {
    State(Fold(StepProject, s.project, events), FoldTasks(s.tasks, events),
          FoldDecisions(s.decisions, events), FoldQuestions(s.questions, events))
  }

  /** The snapshot replay law: replaying B from the state after A is replaying A + B. */
  lemma {:induction false} ReduceSplit(s: State, a: seq<Event>, b: seq<Event>)
    ensures Reduce(s, a + b) == Reduce(Reduce(s, a), b)
  {
    FoldSplit(StepProject, s.project, a, b);
    FoldSplit(StepTasks, s.tasks, a, b);
    FoldSplit(StepDecisions, s.decisions, a, b);
    FoldSplit(StepQuestions, s.questions, a, b);
  }

  // ----- Every map key is the id of its item

  ghost predicate KeyedTasks(m: OMap<Task>) { Consistent(m) && forall k | k in m.at :: m.at[k].taskId == k }
  ghost predicate KeyedDecisions(m: OMap<Decision>) { Consistent(m) && forall k | k in m.at :: m.at[k].decisionId == k }
  ghost predicate KeyedQuestions(m: OMap<Question>) { Consistent(m) && forall k | k in m.at :: m.at[k].questionId == k }

  ghost predicate Keyed(s: State) {
    KeyedTasks(s.tasks) && KeyedDecisions(s.decisions) && KeyedQuestions(s.questions)
  }

  lemma {:induction false} UpdatesKeepId(t: Task, us: seq<FieldUpdate>)
    ensures Fold(ApplyUpdate, t, us).taskId == t.taskId
    decreases |us|
  {
    if us != [] {
      UpdatesKeepId(ApplyUpdate(t, us[0]), us[1..]);
    }
  }

  lemma TouchKeepsId(t: Task, e: Event)
    ensures TouchTask(t, e).taskId == t.taskId
  {
    if e.body.TaskMutated? { UpdatesKeepId(t, e.body.updates); }
  }

  lemma {:induction false} TasksKeyed(m: OMap<Task>, events: seq<Event>)
    requires KeyedTasks(m)
    ensures KeyedTasks(FoldTasks(m, events))
    decreases |events|
  {
    if events != [] {
      var e := events[0];
      if TaskTouched(e) in m.at { TouchKeepsId(m.at[TaskTouched(e)], e); }
      TasksKeyed(StepTasks(m, e), events[1..]);
    }
  }

  lemma {:induction false} DecisionsKeyed(m: OMap<Decision>, events: seq<Event>)
    requires KeyedDecisions(m)
    ensures KeyedDecisions(FoldDecisions(m, events))
    decreases |events|
  {
    if events != [] {
      DecisionsKeyed(StepDecisions(m, events[0]), events[1..]);
    }
  }

  lemma {:induction false} QuestionsKeyed(m: OMap<Question>, events: seq<Event>)
    requires KeyedQuestions(m)
    ensures KeyedQuestions(FoldQuestions(m, events))
    decreases |events|
  {
    if events != [] {
      QuestionsKeyed(StepQuestions(m, events[0]), events[1..]);
    }
  }

  lemma ReduceKeyed(s: State, events: seq<Event>)
    requires Keyed(s)
    ensures Keyed(Reduce(s, events))
  {
    TasksKeyed(s.tasks, events);
    DecisionsKeyed(s.decisions, events);
    QuestionsKeyed(s.questions, events);
  }
}
