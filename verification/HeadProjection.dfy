/** The projection platform's reducer on objects: delta replay updates the state objects of the head it is given. */
module HeadProjection {
  import opened Wrappers
  import opened OrderedMaps
  import opened Folds
  import opened HeadReduction
  import opened Heads
  import opened LiveObjects
  import opened Reducers
  import opened Replay
  import opened ReplayEngine
  import opened SharedNotes

  // ----- The projection object

  datatype Health = Unknown | Building | Ready | Failed

  /** A head as the platform holds it: its lists share the state objects of the reducers. */
  datatype SharedHead = SharedHead(
    head: Head, tasks: seq<Entry<LiveTask>>, decisions: seq<Entry<Decision>>, questions: seq<Entry<Question>>)

  /** The objects hold the values, each under its id. */
  ghost predicate ObjectsAre<V>(es: seq<Entry<V>>, vs: seq<V>, id: V -> string)
    reads es
  {
    |es| == |vs| && forall i | 0 <= i < |es| :: es[i].value == vs[i] && es[i].key == id(vs[i])
  }

  /** The task objects hold the tasks; the lists they refer to are among `own`, and no two tasks share one. */
  ghost predicate TaskObjectsAre(own: set<NoteList>, es: seq<Entry<LiveTask>>, ts: seq<Task>)
    reads es, own
  {
    && |es| == |ts|
    && (forall i | 0 <= i < |es| :: es[i].value.list in own && Present(es[i].value) == ts[i] && es[i].key == ts[i].taskId)
    && (forall i, j | 0 <= i < |es| && 0 <= j < |es| && es[i].value.list == es[j].value.list :: es[i].key == es[j].key)
  }

  ghost predicate Shares(s: SharedHead, own: set<NoteList>)
    reads s.tasks, s.decisions, s.questions, own
  {
    && TaskObjectsAre(own, s.tasks, s.head.activeTasks)
    && ObjectsAre(s.decisions, s.head.activeDecisions, DecisionIdOf)
    && ObjectsAre(s.questions, s.head.openQuestions, QuestionIdOf)
  }

  /** The last object of the head with its id, which is the one that the dict gets. */
  ghost predicate LastWithId<V>(es: seq<Entry<V>>, i: nat)
    requires i < |es|
  {
    forall j | i < j < |es| :: es[j].key != es[i].key
  }

  /** Every such object holds the value of the folded dict, unless an event made the item again. */
  ghost predicate Folded<V>(es: seq<Entry<V>>, after: OMap<V>, makes: (Event, string) -> bool, vals: seq<Event>)
    reads es
  {
    forall i | 0 <= i < |es| && LastWithId(es, i) && !MadeIn(makes, vals, es[i].key) ::
      es[i].key in after.at && es[i].value == after.at[es[i].key]
  }

  /** The same for tasks, with the notes in their lists as they are now. */
  ghost predicate FoldedTasks(now: set<NoteList>, es: seq<Entry<LiveTask>>, after: OMap<Task>, vals: seq<Event>)
    reads es, now
  {
    forall i | 0 <= i < |es| && LastWithId(es, i) && !MadeIn(Recreates, vals, es[i].key) ::
      es[i].value.list in now && es[i].key in after.at && Present(es[i].value) == after.at[es[i].key]
  }

  /** What the objects of the initial head hold once the events have been reduced onto them. */
  ghost predicate Updated(initial: SharedHead, vals: seq<Event>, now: set<NoteList>)
    reads initial.tasks, initial.decisions, initial.questions, now
  {
    var after := Reduce(StateFrom(initial.head), vals);
    && FoldedTasks(now, initial.tasks, after.tasks, vals)
    && Folded(initial.decisions, after.decisions, ProposesAgain, vals)
    && Folded(initial.questions, after.questions, RaisesAgain, vals)
  }

  class CognitiveHeadProjection {
    var health: Health

    constructor ()
      ensures health == Unknown
    {
      health := Unknown;
    }

    /** Only the health changes, no object of a head and no list. */
    method SetHealth(h: Health, ghost s: SharedHead, ghost lists: set<NoteList>)
      modifies this
      ensures health == h
      ensures unchanged(s.tasks) && unchanged(s.decisions) && unchanged(s.questions) && unchanged(lists)
    {
      health := h;
    }

    /** `reduce` on a full stream; raises when the bootstrap events are missing. */
    method Reduce(events: seq<LiveEvent>, ghost vals: seq<Event>, ghost lists: set<NoteList>) returns (head: Option<Head>)
      requires DenoteAll(lists, events, vals) && Separate(events) && lists == EventLists(events)
      modifies this, lists
      ensures head == ReduceFull(vals)
      ensures health == if head.Some? then Ready else Building
    {
      health := Building;
      var complete := HasBootstrap(events, vals, lists);
      if events == [] || !complete { return None; }
      var h := ReduceNew(events, vals, lists);
      head := Some(h);
      health := Ready;
    }

    /**
     `reduce` with an initial head, whose state objects it updates in place; an item that the events
     make again gets an object of its own.
     */
    method ReduceDelta(events: seq<LiveEvent>, initial: SharedHead, ghost vals: seq<Event>, ghost lists: set<NoteList>, ghost own: set<NoteList>)
      returns (head: Head, ghost now: set<NoteList>)
      requires Shares(initial, own) && own !! lists
      requires DenoteAll(lists, events, vals) && Separate(events) && lists == EventLists(events)
      modifies this, initial.tasks, initial.decisions, initial.questions, own, lists
      ensures head == ReduceFrom(initial.head, vals)
      ensures Updated(initial, vals, now)
      ensures health == Ready
    {
      SetHealth(Building, initial, own + lists);
      head, now := ReduceOnto(events, initial, vals, lists, own);
      SetHealth(Ready, initial, now);
    }
  }

  /** The loop over the events that collects the types seen. */
  method HasBootstrap(events: seq<LiveEvent>, ghost vals: seq<Event>, ghost lists: set<NoteList>) returns (b: bool)
    requires DenoteAll(lists, events, vals)
    ensures b == Bootstrapped(vals)
  {
    var created, goal, focus := false, false, false;
    for i := 0 to |events|
      invariant created <==> exists e | e in vals[..i] :: e.body.ProjectCreated?
      invariant goal <==> exists e | e in vals[..i] :: e.body.ProjectGoalSet?
      invariant focus <==> exists e | e in vals[..i] :: e.body.ProjectFocusChanged?
    {
      assert vals[..i + 1] == vals[..i] + [vals[i]];
      assert Denotes(events[i], vals[i]);
      var body := events[i].event.body;
      created, goal, focus := created || body.ProjectCreated?, goal || body.ProjectGoalSet?, focus || body.ProjectFocusChanged?;
    }
    assert vals[..|vals|] == vals;
    b := created && goal && focus;
  }

  /** The reducers, started from nothing. */
  method ReduceNew(events: seq<LiveEvent>, ghost vals: seq<Event>, ghost lists: set<NoteList>) returns (head: Head)
    requires events != [] && DenoteAll(lists, events, vals) && Separate(events) && lists == EventLists(events)
    modifies lists
    ensures head == HeadOf(vals[0].project, Reduce(Initial, vals), MaxVersion(vals))
  {
    var project := new Entry("", NewProject);
    var tasks := new Dict();
    var decisions := new Dict();
    var questions := new Dict();
    assert Denotes(events[0], vals[0]);
    JoinLists({}, lists, tasks.contents, Empty(), events, vals);
    head := ReplayOnto(events[0].event.project, project, tasks, decisions, questions, events, Empty(), vals, TaskLists(tasks.contents) + lists);
  }

  /** Without events the objects hold what the head shows. */
  lemma SharesIsUpdated(s: SharedHead, own: set<NoteList>)
    requires Shares(s, own)
    ensures Updated(s, [], own)
  {
    var t := StateFrom(s.head);
    forall i | 0 <= i < |s.tasks| && LastWithId(s.tasks, i)
      ensures s.tasks[i].key in t.tasks.at && Present(s.tasks[i].value) == t.tasks.at[s.tasks[i].key]
    {
      LastGathered(s.head.activeTasks, TaskIdOf, i);
    }
    forall i | 0 <= i < |s.decisions| && LastWithId(s.decisions, i)
      ensures s.decisions[i].key in t.decisions.at && s.decisions[i].value == t.decisions.at[s.decisions[i].key]
    {
      LastGathered(s.head.activeDecisions, DecisionIdOf, i);
    }
    forall i | 0 <= i < |s.questions| && LastWithId(s.questions, i)
      ensures s.questions[i].key in t.questions.at && s.questions[i].value == t.questions.at[s.questions[i].key]
    {
      LastGathered(s.head.openQuestions, QuestionIdOf, i);
    }
  }

  lemma {:induction false} LastGathered<V>(vs: seq<V>, id: V -> string, i: nat)
    requires i < |vs| && forall j | i < j < |vs| :: id(vs[j]) != id(vs[i])
    ensures id(vs[i]) in Gathered(vs, id).at && Gathered(vs, id).at[id(vs[i])] == vs[i]
  {
    if i < |vs| - 1 { LastGathered(vs[..|vs| - 1], id, i); }
  }

  /** The head returned for a delta: the initial one if there are no events. */
  method ReduceOnto(events: seq<LiveEvent>, initial: SharedHead, ghost vals: seq<Event>, ghost lists: set<NoteList>, ghost own: set<NoteList>)
    returns (head: Head, ghost now: set<NoteList>)
    requires Shares(initial, own) && own !! lists
    requires DenoteAll(lists, events, vals) && Separate(events) && lists == EventLists(events)
    modifies initial.tasks, initial.decisions, initial.questions, own, lists
    ensures head == ReduceFrom(initial.head, vals)
    ensures Updated(initial, vals, now)
  {
    if events == [] {
      SharesIsUpdated(initial, own);
      head, now := initial.head, own;
    } else {
      head, now := ReplayFrom(events, initial, vals, lists, own);
    }
  }

  /** The reducers, started on the state objects of the initial head. */
  method ReplayFrom(events: seq<LiveEvent>, initial: SharedHead, ghost vals: seq<Event>, ghost lists: set<NoteList>, ghost own: set<NoteList>)
    returns (head: Head, ghost now: set<NoteList>)
    requires events != [] && Shares(initial, own) && own !! lists
    requires DenoteAll(lists, events, vals) && Separate(events) && lists == EventLists(events)
    modifies initial.tasks, initial.decisions, initial.questions, own, lists
    ensures head == ReduceFrom(initial.head, vals)
    ensures Updated(initial, vals, now)
  {
    var h := initial.head;
    var project := new Entry("", Project(h.projectName, h.projectGoal, h.currentFocus, None, ""));
    assert Denotes(events[0], vals[0]);
    var tasks, decisions, questions := HeadToDicts(initial, own);
    now := ReduceObjects(initial, project, tasks, decisions, questions, events, vals, lists, own);
    head := HeadAfter(events[0].event.project, project, tasks, decisions, questions, events, StateFrom(h), vals, now);
  }

  /** The dicts of the initial head's objects. */
  method HeadToDicts(s: SharedHead, ghost own: set<NoteList>)
    returns (tasks: Dict<LiveTask>, decisions: Dict<Decision>, questions: Dict<Question>)
    requires Shares(s, own)
    ensures fresh(tasks) && fresh(decisions) && fresh(questions)
    ensures DictsAre(s, tasks, decisions, questions, own)
  {
    tasks := HeadToTasks(s.tasks, s.head.activeTasks, own);
    decisions := HeadToDecisions(s.decisions, s.head.activeDecisions);
    questions := HeadToQuestions(s.questions, s.head.openQuestions);
  }

  ghost predicate DictsAre(s: SharedHead, tasks: Dict<LiveTask>, decisions: Dict<Decision>, questions: Dict<Question>, own: set<NoteList>)
    reads tasks, tasks.objects, decisions, decisions.objects, questions, questions.objects, own
  {
    && tasks.Valid() && decisions.Valid() && questions.Valid()
    && tasks.objects == (set e | e in s.tasks) && decisions.objects == (set e | e in s.decisions) && questions.objects == (set e | e in s.questions)
    && TasksAre(own, tasks.contents, StateFrom(s.head).tasks) && OwnLists(tasks.contents)
    && decisions.contents == StateFrom(s.head).decisions && questions.contents == StateFrom(s.head).questions
    && Adopted(s.tasks, tasks.at) && Adopted(s.decisions, decisions.at) && Adopted(s.questions, questions.at)
  }

  /** The reducers on those dicts. */
  method ReduceObjects(ghost s: SharedHead, project: Entry<Project>, tasks: Dict<LiveTask>, decisions: Dict<Decision>, questions: Dict<Question>,
                       events: seq<LiveEvent>, ghost vals: seq<Event>, ghost lists: set<NoteList>, ghost own: set<NoteList>)
    returns (ghost now: set<NoteList>)
    requires DictsAre(s, tasks, decisions, questions, own) && own !! lists && project.value == StateFrom(s.head).project
    requires DenoteAll(lists, events, vals) && Separate(events) && lists == EventLists(events)
    modifies project, tasks, tasks.objects, decisions, decisions.objects, questions, questions.objects, own, lists
    ensures tasks.Valid() && decisions.Valid() && questions.Valid()
    ensures var start := StateFrom(s.head);
            && TasksAre(now, tasks.contents, FoldTasks(start.tasks, vals)) && DenoteAll(now, events, After(start.tasks, vals))
            && project.value == Fold(StepProject, start.project, vals)
            && decisions.contents == FoldDecisions(start.decisions, vals) && questions.contents == FoldQuestions(start.questions, vals)
    ensures Updated(s, vals, now)
  {
    ghost var start := StateFrom(s.head);
    ghost var ts, ds, qs := tasks.at, decisions.at, questions.at;
    ListsOfHead(own, tasks.contents, start.tasks, lists, events, vals);
    now := ReduceAll(project, tasks, decisions, questions, events, start.tasks, vals, TaskLists(tasks.contents) + lists);
    TasksFolded(now, s.tasks, ts, tasks, FoldTasks(start.tasks, vals), vals);
    ObjectsFolded(s.decisions, ds, decisions, ProposesAgain, vals);
    ObjectsFolded(s.questions, qs, questions, RaisesAgain, vals);
  }

  lemma ObjectsFolded<V>(es: seq<Entry<V>>, before: map<string, Entry<V>>, d: Dict<V>, makes: (Event, string) -> bool, vals: seq<Event>)
    requires d.Valid() && Adopted(es, before) && KeptObjects(makes, before, d.at, vals)
    ensures Folded(es, d.contents, makes, vals)
  {
  }

  lemma TasksFolded(now: set<NoteList>, es: seq<Entry<LiveTask>>, before: map<string, Entry<LiveTask>>, d: Dict<LiveTask>, v: OMap<Task>, vals: seq<Event>)
    requires d.Valid() && Adopted(es, before) && KeptObjects(Recreates, before, d.at, vals) && TasksAre(now, d.contents, v)
    ensures FoldedTasks(now, es, v, vals)
  {
  }

  /** The dicts hold the objects of the head, the last for each id. */
  ghost predicate Adopted<V>(es: seq<Entry<V>>, at: map<string, Entry<V>>) {
    && (forall k | k in at :: at[k] in es)
    && (forall i | 0 <= i < |es| && LastWithId(es, i) :: es[i].key in at && at[es[i].key] == es[i])
  }

  lemma AdoptedMore<V>(es: seq<Entry<V>>, at: map<string, Entry<V>>, e: Entry<V>)
    requires Adopted(es, at)
    ensures Adopted(es + [e], at[e.key := e])
  {
    forall i | 0 <= i < |es| && LastWithId(es + [e], i) ensures LastWithId(es, i) && es[i].key != e.key {
      assert (es + [e])[|es|] == e;
      forall j | i < j < |es| ensures es[j].key != es[i].key { assert (es + [e])[j] == es[j]; }
    }
  }

  lemma ListsOfHead(own: set<NoteList>, m: OMap<LiveTask>, v: OMap<Task>, lists: set<NoteList>, events: seq<LiveEvent>, vals: seq<Event>)
    requires TasksAre(own, m, v) && DenoteAll(lists, events, vals) && lists == EventLists(events)
    ensures TaskLists(m) <= own
    ensures TasksAre(TaskLists(m) + lists, m, v) && DenoteAll(TaskLists(m) + lists, events, vals)
  {
    JoinLists(own, lists, m, v, events, vals);
  }

  lemma AdoptedOwnLists(own: set<NoteList>, es: seq<Entry<LiveTask>>, ts: seq<Task>, d: Dict<LiveTask>)
    requires TaskObjectsAre(own, es, ts) && d.Valid() && Adopted(es, d.at)
    ensures OwnLists(d.contents)
  {
    forall k, l | k in d.contents.at && l in d.contents.at && d.contents.at[k].list == d.contents.at[l].list ensures k == l {
      var i :| 0 <= i < |es| && es[i] == d.at[k];
      var j :| 0 <= j < |es| && es[j] == d.at[l];
      assert es[i].value.list == es[j].value.list;
    }
  }

  /** The loop that puts the objects of one list of the head into a dict. */
  method AdoptAll<V>(es: seq<Entry<V>>, id: V -> string, ghost vs: seq<V>) returns (d: Dict<V>)
    requires ObjectsAre(es, vs, id)
    ensures fresh(d) && d.Valid() && d.objects == (set e | e in es)
    ensures d.contents == Gathered(vs, id) && Adopted(es, d.at)
  {
    d := new Dict();
    for i := 0 to |es|
      invariant fresh(d) && d.Valid() && d.objects == (set e | e in es[..i]) && ObjectsAre(es, vs, id)
      invariant d.contents == Gathered(vs[..i], id) && Adopted(es[..i], d.at)
    {
      assert es[..i + 1] == es[..i] + [es[i]];
      assert vs[..i + 1][..i] == vs[..i];
      AdoptedMore(es[..i], d.at, es[i]);
      d.Adopt(id(es[i].value), es[i]);
    }
    assert es[..|es|] == es && vs[..|vs|] == vs;
  }

  lemma {:induction false} GatheredTasks(own: set<NoteList>, ts: seq<LiveTask>, vs: seq<Task>)
    requires |ts| == |vs| && forall i | 0 <= i < |ts| :: ts[i].list in own && Present(ts[i]) == vs[i]
    ensures TasksAre(own, Gathered(ts, LiveTaskId), TasksFrom(vs))
  {
    if ts != [] {
      var n := |ts| - 1;
      GatheredTasks(own, ts[..n], vs[..n]);
      assert Present(ts[n]) == vs[n];
      TasksAreSet(own, Gathered(ts[..n], LiveTaskId), TasksFrom(vs[..n]), vs[n].taskId, ts[n]);
    }
  }

  function LiveTaskId(t: LiveTask): string { t.fields.taskId }

  ghost function HeldValues<V>(es: seq<Entry<V>>): seq<V>
    reads es
  {
    seq(|es|, i requires 0 <= i < |es| reads es => es[i].value)
  }

  lemma HeldTasks(own: set<NoteList>, es: seq<Entry<LiveTask>>, ts: seq<Task>)
    requires TaskObjectsAre(own, es, ts)
    ensures ObjectsAre(es, HeldValues(es), LiveTaskId) && TasksAre(own, Gathered(HeldValues(es), LiveTaskId), TasksFrom(ts))
  {
    assert forall i | 0 <= i < |es| :: HeldValues(es)[i] == es[i].value && Present(es[i].value) == ts[i];
    GatheredTasks(own, HeldValues(es), ts);
  }

  method HeadToTasks(es: seq<Entry<LiveTask>>, ghost ts: seq<Task>, ghost own: set<NoteList>) returns (d: Dict<LiveTask>)
    requires TaskObjectsAre(own, es, ts)
    ensures fresh(d) && d.Valid() && d.objects == (set e | e in es)
    ensures TasksAre(own, d.contents, TasksFrom(ts)) && OwnLists(d.contents) && Adopted(es, d.at)
  {
    HeldTasks(own, es, ts);
    d := AdoptAll(es, LiveTaskId, HeldValues(es));
    AdoptedOwnLists(own, es, ts, d);
  }

  method HeadToDecisions(es: seq<Entry<Decision>>, ghost ds: seq<Decision>) returns (d: Dict<Decision>)
    requires ObjectsAre(es, ds, DecisionIdOf)
    ensures fresh(d) && d.Valid() && d.objects == (set e | e in es)
    ensures d.contents == DecisionsFrom(ds) && Adopted(es, d.at)
  {
    d := AdoptAll(es, DecisionIdOf, ds);
  }

  method HeadToQuestions(es: seq<Entry<Question>>, ghost qs: seq<Question>) returns (d: Dict<Question>)
    requires ObjectsAre(es, qs, QuestionIdOf)
    ensures fresh(d) && d.Valid() && d.objects == (set e | e in es)
    ensures d.contents == QuestionsFrom(qs) && Adopted(es, d.at)
  {
    d := AdoptAll(es, QuestionIdOf, qs);
  }
}
