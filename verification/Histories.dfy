/**
 What the reducers leave, read off the events alone: which items are known, in which order, and which
 event last set each of their fields. Nothing here follows the reducers step by step.
 */
module Histories {
  import opened Wrappers
  import opened Orders
  import opened OrderedMaps
  import opened Folds

  type EventTest = Event -> bool

  /** `later` is a place after the place `from`, or any place if there is no `from`. */
  predicate IsLater(later: Option<nat>, from: Option<nat>) {
    later.Some? && (from.None? || later.value > from.value)
  }

  /** The ids of some events, in order; "" is no id. */
  function IdsIn(events: seq<Event>, id: Event -> string): seq<string> {
    if events == [] then []
    else
      var n := |events| - 1;
      IdsIn(events[..n], id) + if id(events[n]) == "" then [] else [id(events[n])]
  }

  lemma AdjoinMore(xs: seq<string>, ys: seq<string>, y: string)
    ensures AdjoinAll(xs, ys + [y]) == Adjoin(AdjoinAll(xs, ys), y) && ys + [] == ys
  {
    assert (ys + [y])[..|ys|] == ys;
  }

  lemma IdsMore(keys: seq<string>, events: seq<Event>, e: Event, id: Event -> string)
    ensures var before := AdjoinAll(keys, IdsIn(events, id));
            AdjoinAll(keys, IdsIn(events + [e], id)) == if id(e) == "" then before else Adjoin(before, id(e))
  {
    assert (events + [e])[..|events|] == events;
    AdjoinMore(keys, IdsIn(events, id), id(e));
  }

  // ----- Questions

  function RaisedId(e: Event): string { if e.body.QuestionRaised? then e.body.questionId else "" }
  function Raises(k: string): EventTest { (e: Event) => e.body.QuestionRaised? && e.body.questionId == k != "" }
  function Resolves(k: string): EventTest { (e: Event) => e.body.QuestionResolved? && e.body.questionId == k != "" }

  /** The fields that raising the question sets for good. */
  ghost predicate AsRaised(q: Question, e: Event) {
    && e.body.QuestionRaised?
    && q.title == e.body.title.GetOr("") && q.description == e.body.description.GetOr("")
    && q.priority == e.body.priority.GetOr("normal") && q.blocksTaskIds == e.body.blocksTaskIds.GetOr([])
    && q.raisedAt == e.recordedAt && q.raisedBy == e.actor
  }

  ghost predicate SameRaise(q: Question, was: Question) {
    && q.title == was.title && q.description == was.description && q.priority == was.priority
    && q.blocksTaskIds == was.blocksTaskIds && q.raisedAt == was.raisedAt && q.raisedBy == was.raisedBy
  }

  ghost predicate AsResolved(q: Question, e: Event) {
    && e.body.QuestionResolved?
    && q.status == "resolved" && q.resolution == Some(e.body.resolution.GetOr("")) && q.resolvedAt == e.recordedAt
  }

  /**
   A question after the events, started from the dict `m`: as its last raise made it, or else as it
   was; and from there on open until it is resolved, with what the last resolution says.
   */
  ghost predicate QuestionHistory(q: Question, m: map<string, Question>, events: seq<Event>, k: string) {
    var raised, resolved := LastIndex(events, Raises(k)), LastIndex(events, Resolves(k));
    && q.questionId == k
    && (if raised.Some? then AsRaised(q, events[raised.value]) else k in m && SameRaise(q, m[k]))
    && (if IsLater(resolved, raised) then AsResolved(q, events[resolved.value])
        else if raised.Some? then q.status == "open" && q.resolution == None && q.resolvedAt == None
        else q.status == m[k].status && q.resolution == m[k].resolution && q.resolvedAt == m[k].resolvedAt)
  }

  lemma NextQuestion(m: OMap<Question>, r: OMap<Question>, events: seq<Event>, e: Event, k: string)
    requires k in r.at <==> k in m.at || LastIndex(events, Raises(k)).Some?
    requires k in r.at ==> QuestionHistory(r.at[k], m.at, events, k)
    ensures var after := StepQuestions(r, e);
            && (k in after.at <==> k in m.at || LastIndex(events + [e], Raises(k)).Some?)
            && (k in after.at ==> QuestionHistory(after.at[k], m.at, events + [e], k))
  {
    LastIndexMore(events, e, Raises(k));
    LastIndexMore(events, e, Resolves(k));
  }

  /** Main theorem on questions: which are known, in which order, and what each is. */
  lemma {:induction false} QuestionsExact(m: OMap<Question>, events: seq<Event>, k: string)
    requires KeyedQuestions(m)
    ensures var r := FoldQuestions(m, events);
            && (k in r.at <==> k in m.at || LastIndex(events, Raises(k)).Some?)
            && (k in r.at ==> QuestionHistory(r.at[k], m.at, events, k))
  {
    if events != [] {
      var n := |events| - 1;
      QuestionsExact(m, events[..n], k);
      FoldMore(StepQuestions, m, events[..n], events[n]);
      NextQuestion(m, FoldQuestions(m, events[..n]), events[..n], events[n], k);
      assert events == events[..n] + [events[n]];
    }
  }

  lemma QuestionKeysStep(o: OMap<Question>, e: Event)
    requires Consistent(o)
    ensures Consistent(StepQuestions(o, e)) && StepQuestions(o, e).keys == if RaisedId(e) == "" then o.keys else Adjoin(o.keys, RaisedId(e))
  {
  }

  /** The dict holds its old ids in their order and then each new one when it is first made. */
  lemma {:induction false} QuestionKeys(m: OMap<Question>, events: seq<Event>)
    requires Consistent(m)
    ensures Consistent(FoldQuestions(m, events)) && FoldQuestions(m, events).keys == AdjoinAll(m.keys, IdsIn(events, RaisedId))
  {
    if events != [] {
      var es, e := events[..|events| - 1], events[|events| - 1];
      assert events == es + [e];
      QuestionKeys(m, es);
      assert FoldQuestions(m, events) == StepQuestions(FoldQuestions(m, es), e) by { FoldMore(StepQuestions, m, es, e); }
      QuestionKeysStep(FoldQuestions(m, es), e);
      IdsMore(m.keys, es, e, RaisedId);
    }
  }

  // ----- Decisions

  function ProposedId(e: Event): string { if e.body.DecisionProposed? then e.body.decisionId else "" }
  function ProposesDecision(k: string): EventTest { (e: Event) => e.body.DecisionProposed? && e.body.decisionId == k != "" }
  function Accepts(k: string): EventTest { (e: Event) => e.body.DecisionAccepted? && e.body.decisionId == k != "" }
  function Supersedes(k: string): EventTest { (e: Event) => e.body.DecisionSuperseded? && e.body.decisionId == k != "" }
  function Judges(k: string): EventTest { (e: Event) => Accepts(k)(e) || Supersedes(k)(e) }

  /** The fields that proposing the decision sets for good. */
  ghost predicate AsProposed(d: Decision, e: Event) {
    && e.body.DecisionProposed?
    && d.title == e.body.title.GetOr("") && d.description == e.body.description.GetOr("")
    && d.rationale == e.body.rationale.GetOr("") && d.context == e.body.context.GetOr("")
    && d.category == e.body.category.GetOr("general") && d.createdAt == e.recordedAt && d.createdBy == e.actor
  }

  ghost predicate SameProposal(d: Decision, was: Decision) {
    && d.title == was.title && d.description == was.description && d.rationale == was.rationale && d.context == was.context
    && d.category == was.category && d.createdAt == was.createdAt && d.createdBy == was.createdBy
  }

  /**
   A decision after the events, started from `m`: as last proposed, or else as it was; accepted,
   superseded or still proposed by the last event about it since, with the time of its last
   acceptance and the successor that the last supersession names.
   */
  ghost predicate DecisionHistory(d: Decision, m: map<string, Decision>, events: seq<Event>, k: string) {
    var proposed, judged := LastIndex(events, ProposesDecision(k)), LastIndex(events, Judges(k));
    var accepted, superseded := LastIndex(events, Accepts(k)), LastIndex(events, Supersedes(k));
    && d.decisionId == k
    && (if proposed.Some? then AsProposed(d, events[proposed.value]) else k in m && SameProposal(d, m[k]))
    && (d.status ==
        if IsLater(judged, proposed) then (if events[judged.value].body.DecisionAccepted? then "accepted" else "superseded")
        else if proposed.Some? then "proposed" else m[k].status)
    && (d.acceptedAt ==
        if IsLater(accepted, proposed) then events[accepted.value].recordedAt
        else if proposed.Some? then None else m[k].acceptedAt)
    && (d.supersededBy ==
        if IsLater(superseded, proposed) then events[superseded.value].body.supersededBy
        else if proposed.Some? then None else m[k].supersededBy)
  }

  /** The event proposes or judges the decision. */
  predicate AboutDecision(e: Event, k: string) {
    ProposesDecision(k)(e) || Accepts(k)(e) || Supersedes(k)(e)
  }

  lemma OtherDecisionKept(r: OMap<Decision>, e: Event, k: string)
    requires !AboutDecision(e, k)
    ensures var after := StepDecisions(r, e); (k in after.at <==> k in r.at) && (k in r.at ==> after.at[k] == r.at[k])
  {
    match e.body
    case DecisionProposed(id, _, _, _, _, _) => assert id == "" || id != k;
    case DecisionAccepted(id) => assert id == "" || id != k;
    case DecisionSuperseded(id, _) => assert id == "" || id != k;
    case _ =>
  }

  lemma SameDecisionHistory(d: Decision, m: map<string, Decision>, events: seq<Event>, e: Event, k: string)
    requires !AboutDecision(e, k) && DecisionHistory(d, m, events, k)
    ensures DecisionHistory(d, m, events + [e], k)
  {
    LaterAboutDecision(events, e, k);
    assert forall i | 0 <= i < |events| :: (events + [e])[i] == events[i];
  }

  lemma LaterAboutDecision(events: seq<Event>, e: Event, k: string)
    ensures LastIndex(events + [e], ProposesDecision(k)) == if ProposesDecision(k)(e) then Some(|events|) else LastIndex(events, ProposesDecision(k))
    ensures LastIndex(events + [e], Accepts(k)) == if Accepts(k)(e) then Some(|events|) else LastIndex(events, Accepts(k))
    ensures LastIndex(events + [e], Supersedes(k)) == if Supersedes(k)(e) then Some(|events|) else LastIndex(events, Supersedes(k))
    ensures LastIndex(events + [e], Judges(k)) == if Judges(k)(e) then Some(|events|) else LastIndex(events, Judges(k))
  {
    LastIndexMore(events, e, ProposesDecision(k));
    LastIndexMore(events, e, Accepts(k));
    LastIndexMore(events, e, Supersedes(k));
    LastIndexMore(events, e, Judges(k));
  }

  lemma NextDecision(m: OMap<Decision>, r: OMap<Decision>, events: seq<Event>, e: Event, k: string)
    requires k in r.at <==> k in m.at || LastIndex(events, ProposesDecision(k)).Some?
    requires k in r.at ==> DecisionHistory(r.at[k], m.at, events, k)
    ensures var after := StepDecisions(r, e);
            && (k in after.at <==> k in m.at || LastIndex(events + [e], ProposesDecision(k)).Some?)
            && (k in after.at ==> DecisionHistory(after.at[k], m.at, events + [e], k))
  {
    if AboutDecision(e, k) {
      LaterAboutDecision(events, e, k);
    } else {
      OtherDecisionKept(r, e, k);
      LaterAboutDecision(events, e, k);
      if k in r.at { SameDecisionHistory(r.at[k], m.at, events, e, k); }
    }
  }

  /** Main theorem on decisions. */
  lemma {:induction false} DecisionsExact(m: OMap<Decision>, events: seq<Event>, k: string)
    requires KeyedDecisions(m)
    ensures var r := FoldDecisions(m, events);
            && (k in r.at <==> k in m.at || LastIndex(events, ProposesDecision(k)).Some?)
            && (k in r.at ==> DecisionHistory(r.at[k], m.at, events, k))
  {
    if events != [] {
      var n := |events| - 1;
      DecisionsExact(m, events[..n], k);
      FoldMore(StepDecisions, m, events[..n], events[n]);
      NextDecision(m, FoldDecisions(m, events[..n]), events[..n], events[n], k);
      assert events == events[..n] + [events[n]];
    }
  }

  lemma DecisionKeysStep(o: OMap<Decision>, e: Event)
    requires Consistent(o)
    ensures Consistent(StepDecisions(o, e)) && StepDecisions(o, e).keys == if ProposedId(e) == "" then o.keys else Adjoin(o.keys, ProposedId(e))
  {
  }

  /** The dict holds its old ids in their order and then each new one when it is first made. */
  lemma {:induction false} DecisionKeys(m: OMap<Decision>, events: seq<Event>)
    requires Consistent(m)
    ensures Consistent(FoldDecisions(m, events)) && FoldDecisions(m, events).keys == AdjoinAll(m.keys, IdsIn(events, ProposedId))
  {
    if events != [] {
      var es, e := events[..|events| - 1], events[|events| - 1];
      assert events == es + [e];
      DecisionKeys(m, es);
      assert FoldDecisions(m, events) == StepDecisions(FoldDecisions(m, es), e) by { FoldMore(StepDecisions, m, es, e); }
      DecisionKeysStep(FoldDecisions(m, es), e);
      IdsMore(m.keys, es, e, ProposedId);
    }
  }

  // ----- Tasks

  datatype TaskField =
    | Title | Description | Status | Assignee | Priority | Tags | BlockedBy | CreatedAt | UpdatedAt | CompletedAt
    | CreatedBy | ProgressNotes | RelatedKnowledgeIds

  datatype FieldValue = Text(text: string) | Maybe(option: Option<string>) | Texts(texts: seq<string>) | Notes(notes: seq<Note>)

  function FieldOf(t: Task, f: TaskField): FieldValue {
    match f
    case Title => Text(t.title)
    case Description => Text(t.description)
    case Status => Text(t.status)
    case Assignee => Maybe(t.assignee)
    case Priority => Text(t.priority)
    case Tags => Texts(t.tags)
    case BlockedBy => Texts(t.blockedBy)
    case CreatedAt => Maybe(t.createdAt)
    case UpdatedAt => Maybe(t.updatedAt)
    case CompletedAt => Maybe(t.completedAt)
    case CreatedBy => Text(t.createdBy)
    case ProgressNotes => Notes(t.progressNotes)
    case RelatedKnowledgeIds => Texts(t.relatedKnowledgeIds)
  }

  /** The field that an item of a TASK_MUTATED payload names, and its value. */
  function NamedField(u: FieldUpdate): Option<(TaskField, FieldValue)> {
    match u
    case SetTitle(s) => Some((Title, Text(s)))
    case SetDescription(s) => Some((Description, Text(s)))
    case SetStatus(s) => Some((Status, Text(s)))
    case SetAssignee(o) => Some((Assignee, Maybe(o)))
    case SetPriority(s) => Some((Priority, Text(s)))
    case SetTags(l) => Some((Tags, Texts(l)))
    case SetBlockedBy(l) => Some((BlockedBy, Texts(l)))
    case SetCreatedAt(o) => Some((CreatedAt, Maybe(o)))
    case SetUpdatedAt(o) => Some((UpdatedAt, Maybe(o)))
    case SetCompletedAt(o) => Some((CompletedAt, Maybe(o)))
    case SetCreatedBy(s) => Some((CreatedBy, Text(s)))
    case SetProgressNotes(n) => Some((ProgressNotes, Notes(n)))
    case SetRelatedKnowledgeIds(l) => Some((RelatedKnowledgeIds, Texts(l)))
    case TaskIdOrUnknownKey => None
  }

  /** The last value that a payload gives a field. */
  function LastNamed(us: seq<FieldUpdate>, f: TaskField): Option<FieldValue> {
    if us == [] then None
    else
      var n := |us| - 1;
      if NamedField(us[n]).Some? && NamedField(us[n]).value.0 == f then Some(NamedField(us[n]).value.1) else LastNamed(us[..n], f)
  }

  /** What a created task holds in a field. */
  function Created(e: Event, f: TaskField): FieldValue
    requires e.body.TaskCreated?
  {
    match f
    case Title => Text(e.body.summary)
    case Description => Text(e.body.body)
    case Status => Text("open")
    case Assignee => Maybe(e.body.assignee)
    case Priority => Text(e.body.priority.GetOr("normal"))
    case Tags => Texts(e.body.tags.GetOr([]))
    case BlockedBy => Texts(e.body.blockedBy.GetOr([]))
    case CreatedAt => Maybe(e.recordedAt)
    case UpdatedAt => Maybe(None)
    case CompletedAt => Maybe(None)
    case CreatedBy => Text(e.actor)
    case ProgressNotes => Notes([])
    case RelatedKnowledgeIds => Texts([])
  }

  /** What the event makes of the field of task `k`, if it sets the field. */
  function SetTo(e: Event, k: string, f: TaskField): Option<FieldValue> {
    match e.body
    case TaskCreated(id, _, _, _, _, _, _) => if id == k != "" then Some(Created(e, f)) else None
    case TaskMutated(id, us) =>
      if id != k || k == "" then None else if f == UpdatedAt then Some(Maybe(e.recordedAt)) else LastNamed(us, f)
    case TaskCompleted(id) =>
      if id != k || k == "" then None
      else if f == Status then Some(Text("completed"))
      else if f == CompletedAt then Some(Maybe(e.recordedAt))
      else None
    case _ => None
  }

  function CreatedId(e: Event): string { if e.body.TaskCreated? then e.body.taskId else "" }
  function CreatesTask(k: string): EventTest { (e: Event) => e.body.TaskCreated? && e.body.taskId == k != "" }
  function SetsField(k: string, f: TaskField): EventTest { (e: Event) => SetTo(e, k, f).Some? }

  /** The notes about a task among the events from a place on. */
  function NotesSince(events: seq<Event>, k: string, from: nat): seq<Note> {
    if |events| <= from then []
    else
      var n := |events| - 1;
      var e := events[n];
      NotesSince(events[..n], k, from) +
      if e.body.TaskProgressNoted? && e.body.taskId == k != "" then [Note(e.body.note.GetOr(""), e.recordedAt, e.actor, e.sequence)] else []
  }

  /** What the last event that sets the field of task `k` has made of it; notes are added to that. */
  ghost predicate FieldHistory(t: Task, m: map<string, Task>, events: seq<Event>, k: string, f: TaskField) {
    var last := LastIndex(events, SetsField(k, f));
    && (last.None? ==> k in m)
    && var base := if last.Some? then SetTo(events[last.value], k, f).value else FieldOf(m[k], f);
       if f == ProgressNotes then base.Notes? && t.progressNotes == base.notes + NotesSince(events, k, if last.Some? then last.value + 1 else 0)
       else FieldOf(t, f) == base
  }

  lemma UpdateNamed(t: Task, u: FieldUpdate, f: TaskField)
    ensures FieldOf(ApplyUpdate(t, u), f) == if NamedField(u).Some? && NamedField(u).value.0 == f then NamedField(u).value.1 else FieldOf(t, f)
  {
  }

  lemma {:induction false} UpdatesNamed(t: Task, us: seq<FieldUpdate>, f: TaskField)
    ensures FieldOf(Fold(ApplyUpdate, t, us), f) == LastNamed(us, f).GetOr(FieldOf(t, f))
  {
    if us != [] {
      var n := |us| - 1;
      UpdatesNamed(t, us[..n], f);
      FoldMore(ApplyUpdate, t, us[..n], us[n]);
      UpdateNamed(Fold(ApplyUpdate, t, us[..n]), us[n], f);
      assert us == us[..n] + [us[n]];
    }
  }

  lemma {:induction false} NotesAreNotes(us: seq<FieldUpdate>)
    ensures var v := LastNamed(us, ProgressNotes); v.Some? ==> v.value.Notes?
  {
    if us != [] { NotesAreNotes(us[..|us| - 1]); }
  }

  lemma WrittenNotes(e: Event, k: string)
    ensures var w := SetTo(e, k, ProgressNotes); w.Some? ==> w.value.Notes? && NotesSince([e], k, 0) == []
  {
    assert [e][..0] == [];
    if e.body.TaskMutated? { NotesAreNotes(e.body.updates); }
  }

  /** One event about a known task. */
  lemma TouchedField(t: Task, e: Event, k: string, f: TaskField)
    requires TaskTouched(e) == k != "" && f != ProgressNotes
    ensures FieldOf(TouchTask(t, e), f) == SetTo(e, k, f).GetOr(FieldOf(t, f))
  {
    if e.body.TaskMutated? { UpdatesNamed(t, e.body.updates, f); }
  }

  lemma TouchedNotes(t: Task, e: Event, k: string)
    requires TaskTouched(e) == k != ""
    ensures var w := SetTo(e, k, ProgressNotes);
            (w.Some? ==> w.value.Notes?) && TouchTask(t, e).progressNotes == if w.Some? then w.value.notes else t.progressNotes + NotesSince([e], k, 0)
  {
    assert [e][..0] == [];
    WrittenNotes(e, k);
    if e.body.TaskMutated? { UpdatesNamed(t, e.body.updates, ProgressNotes); }
  }

  lemma MoreNotes(events: seq<Event>, e: Event, k: string, from: nat)
    requires from <= |events|
    ensures NotesSince(events + [e], k, from) == NotesSince(events, k, from) + NotesSince([e], k, 0)
    ensures NotesSince(events + [e], k, |events| + 1) == []
  {
    assert (events + [e])[..|events|] == events && [e][..0] == [];
  }

  /** The task is known and its fields are those of its history. */
  ghost predicate TaskHistory(r: OMap<Task>, m: OMap<Task>, events: seq<Event>, k: string) {
    && (k in r.at <==> k in m.at || LastIndex(events, CreatesTask(k)).Some?)
    && (k in r.at ==> r.at[k].taskId == k && forall f :: FieldHistory(r.at[k], m.at, events, k, f))
  }

  /** Creation sets every field. */
  lemma CreatedField(r: OMap<Task>, m: OMap<Task>, events: seq<Event>, e: Event, k: string, f: TaskField)
    requires CreatesTask(k)(e)
    ensures k in StepTasks(r, e).at && FieldHistory(StepTasks(r, e).at[k], m.at, events + [e], k, f)
  {
    LastIndexMore(events, e, SetsField(k, f));
    MoreNotes(events, e, k, 0);
  }

  lemma UpdatedField(r: OMap<Task>, m: OMap<Task>, events: seq<Event>, e: Event, k: string, f: TaskField)
    requires TaskTouched(e) == k != "" && k in r.at && FieldHistory(r.at[k], m.at, events, k, f)
    ensures FieldHistory(TouchTask(r.at[k], e), m.at, events + [e], k, f)
  {
    LastIndexMore(events, e, SetsField(k, f));
    if f == ProgressNotes {
      UpdatedNotes(r.at[k], m, events, e, k);
    } else {
      TouchedField(r.at[k], e, k, f);
    }
  }

  lemma UpdatedNotes(t: Task, m: OMap<Task>, events: seq<Event>, e: Event, k: string)
    requires TaskTouched(e) == k != "" && FieldHistory(t, m.at, events, k, ProgressNotes)
    ensures FieldHistory(TouchTask(t, e), m.at, events + [e], k, ProgressNotes)
  {
    TouchedNotes(t, e, k);
    if SetTo(e, k, ProgressNotes).Some? {
      NotesSet(m, events, e, k, TouchTask(t, e));
    } else {
      NotesFollow(t, m, events, e, k, TouchTask(t, e));
    }
  }

  /** An event that sets the notes leaves just these. */
  lemma NotesSet(m: OMap<Task>, events: seq<Event>, e: Event, k: string, after: Task)
    requires SetTo(e, k, ProgressNotes).Some? && SetTo(e, k, ProgressNotes).value == Notes(after.progressNotes)
    ensures FieldHistory(after, m.at, events + [e], k, ProgressNotes)
  {
    LastIndexMore(events, e, SetsField(k, ProgressNotes));
    MoreNotes(events, e, k, 0);
    assert after.progressNotes + [] == after.progressNotes;
  }

  /** An event that does not set the notes adds those it notes. */
  lemma NotesFollow(t: Task, m: OMap<Task>, events: seq<Event>, e: Event, k: string, after: Task)
    requires SetTo(e, k, ProgressNotes).None? && FieldHistory(t, m.at, events, k, ProgressNotes)
    requires after.progressNotes == t.progressNotes + NotesSince([e], k, 0)
    ensures FieldHistory(after, m.at, events + [e], k, ProgressNotes)
  {
    var last := LastIndex(events, SetsField(k, ProgressNotes));
    LastIndexMore(events, e, SetsField(k, ProgressNotes));
    MoreNotes(events, e, k, if last.Some? then last.value + 1 else 0);
    var base := if last.Some? then SetTo(events[last.value], k, ProgressNotes).value else FieldOf(m.at[k], ProgressNotes);
    Regroup(base.notes, NotesSince(events, k, if last.Some? then last.value + 1 else 0), NotesSince([e], k, 0));
    assert last.Some? ==> (events + [e])[last.value] == events[last.value];
  }

  lemma OtherField(t: Task, m: OMap<Task>, events: seq<Event>, e: Event, k: string, f: TaskField)
    requires !CreatesTask(k)(e) && (k == "" || TaskTouched(e) != k) && FieldHistory(t, m.at, events, k, f)
    ensures FieldHistory(t, m.at, events + [e], k, f)
  {
    LastIndexMore(events, e, SetsField(k, f));
    if f == ProgressNotes {
      assert [e][..0] == [];
      NotesFollow(t, m, events, e, k, t);
    }
  }

  lemma NextTask(m: OMap<Task>, r: OMap<Task>, events: seq<Event>, e: Event, k: string)
    requires TaskHistory(r, m, events, k)
    ensures TaskHistory(StepTasks(r, e), m, events + [e], k)
  {
    LastIndexMore(events, e, CreatesTask(k));
    if CreatesTask(k)(e) {
      forall f ensures FieldHistory(StepTasks(r, e).at[k], m.at, events + [e], k, f) { CreatedField(r, m, events, e, k, f); }
    } else if k in r.at && TaskTouched(e) == k != "" {
      TouchKeepsId(r.at[k], e);
      forall f ensures FieldHistory(StepTasks(r, e).at[k], m.at, events + [e], k, f) { UpdatedField(r, m, events, e, k, f); }
    } else if k in r.at {
      forall f ensures FieldHistory(r.at[k], m.at, events + [e], k, f) { OtherField(r.at[k], m, events, e, k, f); }
    }
  }

  /** Main theorem on tasks. */
  lemma {:induction false} TasksExact(m: OMap<Task>, events: seq<Event>, k: string)
    requires KeyedTasks(m)
    ensures TaskHistory(FoldTasks(m, events), m, events, k)
  {
    if events == [] {
      forall f | k in m.at ensures FieldHistory(m.at[k], m.at, events, k, f) {}
    } else {
      var n := |events| - 1;
      TasksExact(m, events[..n], k);
      FoldMore(StepTasks, m, events[..n], events[n]);
      NextTask(m, FoldTasks(m, events[..n]), events[..n], events[n], k);
      assert events == events[..n] + [events[n]];
    }
  }

  lemma TaskKeysStep(o: OMap<Task>, e: Event)
    requires Consistent(o)
    ensures Consistent(StepTasks(o, e)) && StepTasks(o, e).keys == if CreatedId(e) == "" then o.keys else Adjoin(o.keys, CreatedId(e))
  {
  }

  /** The dict holds its old ids in their order and then each new one when it is first made. */
  lemma {:induction false} TaskKeys(m: OMap<Task>, events: seq<Event>)
    requires Consistent(m)
    ensures Consistent(FoldTasks(m, events)) && FoldTasks(m, events).keys == AdjoinAll(m.keys, IdsIn(events, CreatedId))
  {
    if events != [] {
      var es, e := events[..|events| - 1], events[|events| - 1];
      assert events == es + [e];
      TaskKeys(m, es);
      assert FoldTasks(m, events) == StepTasks(FoldTasks(m, es), e) by { FoldMore(StepTasks, m, es, e); }
      TaskKeysStep(FoldTasks(m, es), e);
      IdsMore(m.keys, es, e, CreatedId);
    }
  }

  // ----- The project

  function NamesProject(e: Event): bool { e.body.ProjectCreated? }
  function SetsGoal(e: Event): bool { e.body.ProjectGoalSet? }
  function SetsFocus(e: Event): bool { e.body.ProjectFocusChanged? }

  /** Each field of the project as the last event about it says, or as it was. */
  lemma {:induction false} ProjectExact(p: Project, events: seq<Event>)
    ensures var r := Fold(StepProject, p, events);
            var named, goal, focus := LastIndex(events, NamesProject), LastIndex(events, SetsGoal), LastIndex(events, SetsFocus);
            && r.name == (if named.Some? then events[named.value].body.name.GetOr("") else p.name)
            && r.createdAt == (if named.Some? then events[named.value].recordedAt else p.createdAt)
            && r.createdBy == (if named.Some? then events[named.value].actor else p.createdBy)
            && r.goal == (if goal.Some? then events[goal.value].body.goal.GetOr("") else p.goal)
            && r.currentFocus == (if focus.Some? then events[focus.value].body.focus.GetOr("") else p.currentFocus)
  {
    if events != [] {
      var n := |events| - 1;
      ProjectExact(p, events[..n]);
      FoldMore(StepProject, p, events[..n], events[n]);
      assert events == events[..n] + [events[n]];
    }
  }
}
