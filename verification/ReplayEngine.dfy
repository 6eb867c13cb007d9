/**
 The replay engine and the compiler as the program runs them: events and payloads decoded into
 objects, reducers that change objects and lists in place. They are proved to compute `Projected`
 and `Compile`, and delta replay to leave the payload it starts from alone.
 */
module ReplayEngine {
  import opened Wrappers
  import opened OrderedMaps
  import opened Folds
  import opened SharedNotes
  import opened LiveObjects
  import opened Reducers
  import opened Heads
  import opened Snapshots
  import opened Ledger
  import opened Replay

  // ----- What the store returns: objects of its own, decoded from the stored text

  /** The items of one payload, with a new list for each list of notes. */
  method DecodeItems(us: seq<FieldUpdate>) returns (items: seq<LiveUpdate>, ghost lists: set<NoteList>)
    ensures fresh(lists) && ItemsDecoded(items, us, lists)
  {
    items, lists := [], {};
    for i := 0 to |us|
      invariant fresh(lists) && ItemsDecoded(items, us[..i], lists)
    {
      assert us[..i + 1] == us[..i] + [us[i]];
      match us[i] {
        case SetProgressNotes(n) =>
          var l := new NoteList(n);
          items, lists := items + [Listed(l)], lists + {l};
        case _ => items := items + [Plain(us[i])];
      }
    }
    assert us[..|us|] == us;
  }

  /** The items stand for the updates, and no list is in two of them. */
  ghost predicate ItemsDecoded(items: seq<LiveUpdate>, us: seq<FieldUpdate>, lists: set<NoteList>)
    reads lists
  {
    && |items| == |us|
    && (forall i | 0 <= i < |items| :: (items[i].Listed? ==> items[i].list in lists) && ItemIs(items[i], us[i]))
    && (forall a, b | 0 <= a < b < |items| && items[a].Listed? && items[b].Listed? :: items[a].list != items[b].list)
  }

  method DecodeEvent(v: Event) returns (e: LiveEvent, ghost lists: set<NoteList>)
    ensures fresh(lists) && ListsIn(e) <= lists && Denotes(e, v) && OncePerPayload(e)
  {
    if v.body.TaskMutated? {
      var items;
      items, lists := DecodeItems(v.body.updates);
      e := LiveEvent(v.(body := TaskMutated(v.body.taskId, [])), items);
    } else {
      e, lists := LiveEvent(v, []), {};
    }
  }

  /** `get_project_stream`: event objects that share no list. */
  method DecodeEvents(vals: seq<Event>) returns (events: seq<LiveEvent>, ghost lists: set<NoteList>)
    ensures fresh(lists) && EventLists(events) <= lists && DenoteAll(lists, events, vals) && Separate(events)
  {
    events, lists := [], {};
    for i := 0 to |vals|
      invariant fresh(lists) && DenoteAll(lists, events, vals[..i]) && Separate(events)
    {
      ghost var before := lists;
      var e, more := DecodeEvent(vals[i]);
      assert vals[..i + 1] == vals[..i] + [vals[i]];
      SeparateMore(before, events, e, more);
      events, lists := events + [e], lists + more;
    }
    assert vals[..|vals|] == vals;
    forall l | l in EventLists(events) ensures l in lists {}
  }

  lemma SeparateMore(lists: set<NoteList>, events: seq<LiveEvent>, e: LiveEvent, more: set<NoteList>)
    requires Separate(events) && OncePerPayload(e) && ListsIn(e) <= more && lists !! more
    requires forall i | 0 <= i < |events| :: ListsIn(events[i]) <= lists
    ensures Separate(events + [e])
  {
  }

  /** A row of a loaded payload, with its list of notes as an object. */
  datatype LiveRow = LiveRow(row: Row, notes: Option<NoteList>)

  ghost function RowLists(rows: OMap<LiveRow>): set<NoteList> {
    set k | k in rows.at && rows.at[k].notes.Some? :: rows.at[k].notes.value
  }

  ghost predicate RowIs(r: LiveRow, v: Row)
    reads if r.notes.Some? then {r.notes.value} else {}
  {
    match r.notes
    case None => v == r.row && (ProgressNotes in v ==> !v[ProgressNotes].JNotes?)
    case Some(l) => v == r.row[ProgressNotes := JNotes(l.notes)]
  }

  ghost predicate RowsAre(rows: OMap<LiveRow>, vs: OMap<Row>)
    reads RowLists(rows)
  {
    rows.keys == vs.keys && rows.at.Keys == vs.at.Keys && forall k | k in rows.at :: RowIs(rows.at[k], vs.at[k])
  }

  method DecodeRow(v: Row) returns (r: LiveRow)
    ensures RowIs(r, v) && (r.notes.Some? ==> fresh(r.notes.value))
  {
    if ProgressNotes in v && v[ProgressNotes].JNotes? {
      var l := new NoteList(v[ProgressNotes].notes);
      assert v[ProgressNotes := JNotes(l.notes)] == v;
      r := LiveRow(v, Some(l));
    } else {
      r := LiveRow(v, None);
    }
  }

  /** The task rows of a loaded payload. */
  method DecodeRows(vs: OMap<Row>) returns (rows: OMap<LiveRow>)
    requires Consistent(vs)
    ensures RowsAre(rows, vs) && fresh(RowLists(rows))
  {
    var at: map<string, LiveRow> := map[];
    for i := 0 to |vs.keys|
      invariant forall k :: k in at <==> k in vs.keys[..i]
      invariant forall k | k in at :: k in vs.at && RowIs(at[k], vs.at[k]) && (at[k].notes.Some? ==> fresh(at[k].notes.value))
    {
      assert vs.keys[..i + 1] == vs.keys[..i] + [vs.keys[i]];
      var r := DecodeRow(vs.at[vs.keys[i]]);
      at := at[vs.keys[i] := r];
    }
    assert vs.keys[..|vs.keys|] == vs.keys;
    rows := OMap(vs.keys, at);
  }

  // ----- The engine on objects

  /** The notes of one row, copied into a new list. */
  method CopyNotes(r: LiveRow, ghost v: Row) returns (copy: NoteList)
    requires RowIs(r, v)
    ensures fresh(copy) && copy.notes == GetNotes(v, ProgressNotes)
  {
    copy := new NoteList(if r.notes.Some? then r.notes.value.notes else GetNotes(r.row, ProgressNotes));
  }

  method CopyRow(rows: OMap<LiveRow>, ghost vs: OMap<Row>, k: string) returns (copy: NoteList)
    requires RowsAre(rows, vs) && k in vs.at
    ensures fresh(copy) && copy.notes == GetNotes(vs.at[k], ProgressNotes)
  {
    assert RowIs(rows.at[k], vs.at[k]);
    copy := CopyNotes(rows.at[k], vs.at[k]);
  }

  /** The copies hold the notes of the rows, and none is for two rows. */
  ghost predicate CopiesAre(copies: map<string, NoteList>, owner: map<NoteList, string>, vs: OMap<Row>)
    reads owner.Keys
  {
    forall k | k in copies ::
      && k in vs.at && copies[k] in owner && owner[copies[k]] == k
      && copies[k].notes == GetNotes(vs.at[k], ProgressNotes)
  }

  lemma CopiesMore(copies: map<string, NoteList>, owner: map<NoteList, string>, vs: OMap<Row>, k: string, l: NoteList)
    requires CopiesAre(copies, owner, vs) && l !in owner && k in vs.at && l.notes == GetNotes(vs.at[k], ProgressNotes)
    ensures CopiesAre(copies[k := l], owner[l := k], vs)
  {
  }

  lemma OneMoreKey(keys: seq<string>, i: nat)
    requires i < |keys|
    ensures forall k :: k in keys[..i + 1] <==> k in keys[..i] || k == keys[i]
  {
    assert keys[..i + 1] == keys[..i] + [keys[i]];
  }

  /** One more row. */
  method CopyNext(rows: OMap<LiveRow>, ghost vs: OMap<Row>, k: string, copies: map<string, NoteList>, ghost owner: map<NoteList, string>)
    returns (more: map<string, NoteList>, ghost owners: map<NoteList, string>)
    requires RowsAre(rows, vs) && k in vs.at && CopiesAre(copies, owner, vs)
    ensures more.Keys == copies.Keys + {k} && fresh(owners.Keys - owner.Keys) && CopiesAre(more, owners, vs)
  {
    var l := CopyRow(rows, vs, k);
    CopiesMore(copies, owner, vs, k, l);
    more, owners := copies[k := l], owner[l := k];
  }

  /** A new list for each row, each for one row only. */
  method CopyAllNotes(rows: OMap<LiveRow>, ghost vs: OMap<Row>) returns (copies: map<string, NoteList>, ghost owner: map<NoteList, string>)
    requires (forall k :: k in vs.keys <==> k in vs.at) && RowsAre(rows, vs)
    ensures fresh(owner.Keys) && copies.Keys == rows.at.Keys && CopiesAre(copies, owner, vs)
  {
    copies, owner := map[], map[];
    for i := 0 to |rows.keys|
      invariant fresh(owner.Keys) && RowsAre(rows, vs) && CopiesAre(copies, owner, vs)
      invariant forall k :: k in copies <==> k in vs.keys[..i]
    {
      OneMoreKey(vs.keys, i);
      copies, owner := CopyNext(rows, vs, rows.keys[i], copies, owner);
    }
    assert vs.keys[..|vs.keys|] == vs.keys;
  }

  /** `_dict_to_task_state` for each row. */
  function RebuiltStates(rows: OMap<LiveRow>, copies: map<string, NoteList>): OMap<LiveTask>
    requires copies.Keys == rows.at.Keys
  {
    OMap(rows.keys, map k | k in rows.at :: LiveTask(RowTask(rows.at[k].row), copies[k]))
  }

  lemma StatesAre(rows: OMap<LiveRow>, vs: OMap<Row>, copies: map<string, NoteList>, owner: map<NoteList, string>)
    requires RowsAre(rows, vs) && copies.Keys == rows.at.Keys && CopiesAre(copies, owner, vs)
    ensures var r := RebuiltStates(rows, copies); TasksAre(owner.Keys, r, MapValues(vs, RowTask)) && OwnLists(r)
  {
    var r := RebuiltStates(rows, copies);
    forall k | k in r.at ensures Present(r.at[k]) == RowTask(vs.at[k]) {
      StateIs(rows.at[k], vs.at[k], copies[k]);
    }
  }

  lemma StateIs(r: LiveRow, v: Row, copy: NoteList)
    requires RowIs(r, v) && copy.notes == GetNotes(v, ProgressNotes)
    ensures Present(LiveTask(RowTask(r.row), copy)) == RowTask(v)
  {
  }

  /** A dict of new state objects, in the order of the rows. */
  method RebuildDict<V>(states: OMap<V>) returns (d: Dict<V>)
    requires Consistent(states)
    ensures d.Valid() && fresh(d) && fresh(d.objects) && d.contents == states
  {
    d := new Dict();
    for i := 0 to |states.keys|
      invariant d.Valid() && fresh(d) && fresh(d.objects)
      invariant d.contents == AssignAll(states.keys[..i], states.at, Itself)
    {
      assert states.keys[..i + 1][..i] == states.keys[..i];
      d.Put(states.keys[i], states.at[states.keys[i]]);
    }
    assert states.keys[..|states.keys|] == states.keys;
    AssignedInOrder(states);
  }

  function Itself<V>(v: V): V { v }

  lemma AssignedInOrder<V>(m: OMap<V>)
    requires Consistent(m)
    ensures AssignAll(m.keys, m.at, Itself) == m
  {
    AssignAllIsMapValues(m, Itself);
    assert MapValues(m, Itself).at == m.at;
  }

  /** A loaded payload: its task rows are objects. */
  datatype LiveContent = LiveContent(content: Content, tasks: OMap<LiveRow>)

  ghost predicate ContentIs(p: LiveContent, c: Content)
    reads RowLists(p.tasks)
  {
    c == p.content.(tasks := c.tasks) && RowsAre(p.tasks, c.tasks)
  }

  lemma JoinLists(a: set<NoteList>, b: set<NoteList>, m: OMap<LiveTask>, v: OMap<Task>, es: seq<LiveEvent>, vs: seq<Event>)
    requires TasksAre(a, m, v) && DenoteAll(b, es, vs)
    ensures TasksAre(TaskLists(m) + EventLists(es), m, v) && DenoteAll(TaskLists(m) + EventLists(es), es, vs)
  {
    FewerLists(b, es, vs);
    forall k | k in m.at ensures m.at[k].list in TaskLists(m) {}
  }

  lemma {:induction false} VersionsApart(es: seq<Event>, fs: seq<Event>)
    requires AllAlike(es, fs)
    ensures MaxVersion(es) == MaxVersion(fs)
  {
    if es != [] {
      AlikeSameKind(es[|es| - 1], fs[|es| - 1]);
      RelistedKeepsVersion(es[|es| - 1], fs[|es| - 1]);
      VersionsApart(es[..|es| - 1], fs[..|es| - 1]);
    }
  }

  lemma RelistedKeepsVersion(e: Event, f: Event)
    requires Alike(e, f)
    ensures e.version == f.version
  {
    assert Relisted(e, []).version == e.version && Relisted(f, []).version == f.version;
  }

  /** Lists and the objects of the different dicts are different objects. */
  lemma KindsApart(lists: set<NoteList>, tasks: Dict<LiveTask>, decisions: Dict<Decision>, questions: Dict<Question>, project: Entry<Project>)
    ensures var ls: set<object>, ts: set<object>, ds: set<object>, qs: set<object> :=
              lists, tasks.objects, decisions.objects, questions.objects;
            && ls !! ds && ls !! qs && ts !! ds && ts !! qs && ds !! qs
            && decisions !in ls && questions !in ls && project !in ls && decisions !in ts && questions !in ts && project !in ts
            && decisions !in qs && questions !in ds && project !in ds && project !in qs
  {
  }

  /** The project reducer, which leaves the other states alone. */
  method ReduceProjectAlone(project: Entry<Project>, ghost tasks: Dict<LiveTask>, ghost decisions: Dict<Decision>, ghost questions: Dict<Question>,
                            events: seq<LiveEvent>, ghost vals: seq<Event>, ghost lists: set<NoteList>)
    requires DenoteAll(lists, events, vals)
    modifies project
    ensures project.value == Fold(StepProject, old(project.value), vals)
    ensures unchanged(lists) && unchanged(tasks) && unchanged(tasks.objects)
    ensures unchanged(decisions) && unchanged(decisions.objects) && unchanged(questions) && unchanged(questions.objects)
  {
    KindsApart(lists, tasks, decisions, questions, project);
    ReduceProject(events, project, vals, lists);
  }

  /** The task reducer, which leaves the other states alone. */
  method ReduceTasksAlone(tasks: Dict<LiveTask>, ghost project: Entry<Project>, ghost decisions: Dict<Decision>, ghost questions: Dict<Question>,
                          events: seq<LiveEvent>, ghost m: OMap<Task>, ghost vals: seq<Event>, ghost lists: set<NoteList>)
    returns (ghost more: set<NoteList>)
    requires tasks.Valid() && TasksAre(lists, tasks.contents, m) && OwnLists(tasks.contents)
    requires DenoteAll(lists, events, vals) && Separate(events)
    requires EventLists(events) !! TaskLists(tasks.contents) && lists == TaskLists(tasks.contents) + EventLists(events)
    modifies tasks, tasks.objects, lists
    ensures tasks.Valid() && TasksAre(more, tasks.contents, FoldTasks(m, vals)) && DenoteAll(more, events, After(m, vals))
    ensures AllAlike(vals, After(m, vals)) && KeptObjects(Recreates, old(tasks.at), tasks.at, vals)
    ensures unchanged(project) && unchanged(decisions) && unchanged(decisions.objects) && unchanged(questions) && unchanged(questions.objects)
  {
    KindsApart(lists, tasks, decisions, questions, project);
    AfterAlike(m, vals);
    more := ReduceTasks(events, tasks, m, vals, lists);
  }

  lemma {:induction false} MadeApart(es: seq<Event>, fs: seq<Event>, k: string)
    requires AllAlike(es, fs)
    ensures MadeIn(ProposesAgain, es, k) <==> MadeIn(ProposesAgain, fs, k)
    ensures MadeIn(RaisesAgain, es, k) <==> MadeIn(RaisesAgain, fs, k)
  {
    if es != [] {
      AlikeSameKind(es[|es| - 1], fs[|es| - 1]);
      MadeApart(es[..|es| - 1], fs[..|es| - 1], k);
    }
  }

  /**
   The reducers of decisions and questions, which leave the tasks alone. The events are `now` by
   then, and were `vals`.
   */
  method ReduceDecisionsAndQuestions(ghost tasks: Dict<LiveTask>, ghost project: Entry<Project>, decisions: Dict<Decision>, questions: Dict<Question>,
                                     events: seq<LiveEvent>, ghost vals: seq<Event>, ghost now: seq<Event>, ghost lists: set<NoteList>)
    requires decisions.Valid() && questions.Valid() && DenoteAll(lists, events, now) && AllAlike(vals, now)
    modifies decisions, decisions.objects, questions, questions.objects
    ensures decisions.Valid() && questions.Valid()
    ensures unchanged(lists) && unchanged(tasks) && unchanged(tasks.objects) && unchanged(project)
    ensures decisions.contents == FoldDecisions(old(decisions.contents), vals)
    ensures questions.contents == FoldQuestions(old(questions.contents), vals)
    ensures KeptObjects(ProposesAgain, old(decisions.at), decisions.at, vals) && KeptObjects(RaisesAgain, old(questions.at), questions.at, vals)
  {
    OthersApart(State(NewProject, Empty(), decisions.contents, questions.contents), vals, now);
    forall k { MadeApart(vals, now, k); }
    KindsApart(lists, tasks, decisions, questions, project);
    ReduceDecisions(events, decisions, now, lists);
    ReduceQuestions(events, questions, now, lists);
  }

  /** `reduce` of all four reducers on the same events, in place. */
  method ReduceAll(projectState: Entry<Project>, tasks: Dict<LiveTask>, decisions: Dict<Decision>, questions: Dict<Question>,
                   events: seq<LiveEvent>, ghost m: OMap<Task>, ghost vals: seq<Event>, ghost lists: set<NoteList>)
    returns (ghost more: set<NoteList>)
    requires tasks.Valid() && decisions.Valid() && questions.Valid()
    requires TasksAre(lists, tasks.contents, m) && OwnLists(tasks.contents) && DenoteAll(lists, events, vals) && Separate(events)
    requires EventLists(events) !! TaskLists(tasks.contents) && lists == TaskLists(tasks.contents) + EventLists(events)
    modifies projectState, tasks, tasks.objects, decisions, decisions.objects, questions, questions.objects, lists
    ensures tasks.Valid() && decisions.Valid() && questions.Valid()
    ensures projectState.value == Fold(StepProject, old(projectState.value), vals)
    ensures TasksAre(more, tasks.contents, FoldTasks(m, vals)) && DenoteAll(more, events, After(m, vals))
    ensures decisions.contents == FoldDecisions(old(decisions.contents), vals)
    ensures questions.contents == FoldQuestions(old(questions.contents), vals)
    ensures KeptObjects(Recreates, old(tasks.at), tasks.at, vals)
    ensures KeptObjects(ProposesAgain, old(decisions.at), decisions.at, vals) && KeptObjects(RaisesAgain, old(questions.at), questions.at, vals)
  {
    ReduceProjectAlone(projectState, tasks, decisions, questions, events, vals, lists);
    more := ReduceTasksAlone(tasks, projectState, decisions, questions, events, m, vals, lists);
    ReduceDecisionsAndQuestions(tasks, projectState, decisions, questions, events, vals, After(m, vals), more);
  }

  /** The head built from reduced state; `s` is the state that the reducers started from. */
  method HeadAfter(project: string, projectState: Entry<Project>, tasks: Dict<LiveTask>, decisions: Dict<Decision>, questions: Dict<Question>,
                   events: seq<LiveEvent>, ghost s: State, ghost vals: seq<Event>, ghost lists: set<NoteList>)
    returns (head: Head)
    requires tasks.Valid() && decisions.Valid() && questions.Valid()
    requires TasksAre(lists, tasks.contents, FoldTasks(s.tasks, vals)) && DenoteAll(lists, events, After(s.tasks, vals))
    requires projectState.value == Fold(StepProject, s.project, vals)
    requires decisions.contents == FoldDecisions(s.decisions, vals) && questions.contents == FoldQuestions(s.questions, vals)
    ensures head == HeadOf(project, Reduce(s, vals), MaxVersion(vals))
  {
    head := BuildHead(project, projectState, tasks, decisions, questions, events, FoldTasks(s.tasks, vals), After(s.tasks, vals), lists);
    AfterAlike(s.tasks, vals);
    VersionsApart(vals, After(s.tasks, vals));
  }

  /** Apply the events to the given reducer state, in place, and build the head. */
  method ReplayOnto(project: string, projectState: Entry<Project>, tasks: Dict<LiveTask>, decisions: Dict<Decision>, questions: Dict<Question>,
                    events: seq<LiveEvent>, ghost m: OMap<Task>, ghost vals: seq<Event>, ghost lists: set<NoteList>)
    returns (head: Head)
    requires tasks.Valid() && decisions.Valid() && questions.Valid()
    requires TasksAre(lists, tasks.contents, m) && OwnLists(tasks.contents) && DenoteAll(lists, events, vals) && Separate(events)
    requires EventLists(events) !! TaskLists(tasks.contents) && lists == TaskLists(tasks.contents) + EventLists(events)
    modifies projectState, tasks, tasks.objects, decisions, decisions.objects, questions, questions.objects, lists
    ensures head == HeadOf(project, Reduce(State(old(projectState.value), m, old(decisions.contents), old(questions.contents)), vals), MaxVersion(vals))
  {
    ghost var s := State(projectState.value, m, decisions.contents, questions.contents);
    ghost var more := ReduceAll(projectState, tasks, decisions, questions, events, m, vals, lists);
    head := HeadAfter(project, projectState, tasks, decisions, questions, events, s, vals, more);
  }

  /** The dict of task objects for the rows of a payload. */
  method RebuildTasks(rows: OMap<LiveRow>, ghost vs: OMap<Row>) returns (d: Dict<LiveTask>, ghost lists: set<NoteList>)
    requires Consistent(vs) && RowsAre(rows, vs)
    ensures d.Valid() && fresh(d) && fresh(d.objects) && fresh(lists)
    ensures TasksAre(lists, d.contents, MapValues(vs, RowTask)) && OwnLists(d.contents)
  {
    var copies, owner := CopyAllNotes(rows, vs);
    StatesAre(rows, vs, copies, owner);
    lists := owner.Keys;
    d := RebuildDict(RebuiltStates(rows, copies));
  }

  /** The reducer state rebuilt from a payload, all of it new. */
  method RebuildDicts(p: LiveContent, ghost c: Content)
    returns (tasks: Dict<LiveTask>, decisions: Dict<Decision>, questions: Dict<Question>, ghost own: set<NoteList>)
    requires ContentIs(p, c) && Consistent(c.tasks) && Consistent(c.decisions) && Consistent(c.questions)
    ensures tasks.Valid() && decisions.Valid() && questions.Valid()
    ensures fresh(tasks) && fresh(tasks.objects) && fresh(decisions) && fresh(decisions.objects) && fresh(questions) && fresh(questions.objects)
    ensures fresh(own) && TaskLists(tasks.contents) <= own
    ensures TasksAre(own, tasks.contents, MapValues(c.tasks, RowTask)) && OwnLists(tasks.contents)
    ensures decisions.contents == MapValues(c.decisions, RowDecision) && questions.contents == MapValues(c.questions, RowQuestion)
  {
    tasks, own := RebuildTasks(p.tasks, c.tasks);
    decisions := RebuildDict(MapValues(p.content.decisions, RowDecision));
    questions := RebuildDict(MapValues(p.content.questions, RowQuestion));
  }

  /** The reducers, started on the state rebuilt from the payload. */
  method ReplayRebuilt(project: string, p: LiveContent, events: seq<LiveEvent>, ghost c: Content, ghost vals: seq<Event>, ghost lists: set<NoteList>)
    returns (head: Head)
    requires ContentIs(p, c) && Consistent(c.tasks) && Consistent(c.decisions) && Consistent(c.questions)
    requires DenoteAll(lists, events, vals) && Separate(events) && lists == EventLists(events)
    modifies lists
    ensures head == HeadOf(project, Reduce(Rebuild(c), vals), MaxVersion(vals))
  {
    var projectState := new Entry("", Project(p.content.projectName, p.content.projectGoal, p.content.currentFocus, None, ""));
    var tasks, decisions, questions, own := RebuildDicts(p, c);
    ghost var m := MapValues(c.tasks, RowTask);
    JoinLists(own, lists, tasks.contents, m, events, vals);
    head := ReplayOnto(project, projectState, tasks, decisions, questions, events, m, vals, TaskLists(tasks.contents) + lists);
  }

  /**
   The delta branch: reducers started on the state rebuilt from the payload. Only lists of the
   events can change; the payload is what it was.
   */
  method DeltaHead(project: string, p: LiveContent, events: seq<LiveEvent>, ghost c: Content, ghost vals: seq<Event>, ghost lists: set<NoteList>)
    returns (head: Head)
    requires ContentIs(p, c) && Consistent(c.tasks) && Consistent(c.decisions) && Consistent(c.questions)
    requires DenoteAll(lists, events, vals) && Separate(events) && lists == EventLists(events) && lists !! RowLists(p.tasks)
    modifies lists
    ensures head == HeadOf(project, Reduce(Rebuild(c), vals), MaxVersion(vals))
    ensures unchanged(RowLists(p.tasks)) && ContentIs(p, c)
  {
    head := ReplayRebuilt(project, p, events, c, vals, lists);
  }

  /** Full replay: the reducers started from nothing. */
  method FullReplay(project: string, stream: seq<Event>) returns (head: Head)
    ensures head == HeadOf(project, Reduce(Initial, stream), MaxVersion(stream))
  {
    var events, lists := DecodeEvents(stream);
    var projectState := new Entry("", NewProject);
    var tasks := new Dict();
    var decisions := new Dict();
    var questions := new Dict();
    JoinLists({}, lists, tasks.contents, Empty(), events, stream);
    head := ReplayOnto(project, projectState, tasks, decisions, questions, events, Empty(), stream, TaskLists(tasks.contents) + EventLists(events));
  }

  /** Delta replay of a stored payload and a stored stream, both decoded first. */
  method DeltaReplay(project: string, c: Content, stream: seq<Event>) returns (head: Head)
    requires Consistent(c.tasks) && Consistent(c.decisions) && Consistent(c.questions)
    ensures head == HeadOf(project, Reduce(Rebuild(c), stream), MaxVersion(stream))
  {
    var rows := DecodeRows(c.tasks);
    var events, lists := DecodeEvents(stream);
    FewerLists(lists, events, stream);
    head := DeltaHead(project, LiveContent(c.(tasks := Empty()), rows), events, c, stream, EventLists(events));
  }

  /** `build_projection` */
  method BuildProjection(db: Database, project: string, manager: Manager) returns (r: Outcome)
    requires DictsOk(db)
    ensures r == Projected(db, project, manager)
  {
    var load := LoadValid(db, project, manager);
    LatestSnapshotExact(db.snapshots, project);
    var latest := LatestSequence(db.events, project);
    if load.Valid? && load.content.sequence >= latest {
      return Built(ReplayResult(ToHead(load.content), FastPath, 0, load.content.sequence, true, true, load.content.sequence, latest));
    }
    if load.Valid? && load.content.sequence > 0 {
      var c := load.content;
      var stream := Stream(db.events, project, c.sequence);
      var head := DeltaReplay(project, c, stream);
      r := Built(ReplayResult(head, Delta, |stream|, c.sequence, true, true, c.sequence, latest));
    } else {
      var stream := Stream(db.events, project, 0);
      if !Bootstrapped(stream) { return MissingBootstrap; }
      var head := FullReplay(project, stream);
      r := Built(ReplayResult(head, Full, |stream|, 0, load.Valid?, false, if load.Valid? then load.content.sequence else 0, latest));
    }
  }

  /** The reducer state to save, rebuilt from the whole stream. */
  method FullState(stream: seq<Event>) returns (allTasks: OMap<Task>, allDecisions: OMap<Decision>, allQuestions: OMap<Question>)
    ensures var s := Reduce(Initial, stream); allTasks == s.tasks && allDecisions == s.decisions && allQuestions == s.questions
  {
    var events, lists := DecodeEvents(stream);
    var project := new Entry("", NewProject);
    var tasks := new Dict();
    var decisions := new Dict();
    var questions := new Dict();
    JoinLists({}, lists, tasks.contents, Empty(), events, stream);
    ghost var more := ReduceAll(project, tasks, decisions, questions, events, Empty(), stream, TaskLists(tasks.contents) + EventLists(events));
    allTasks := PresentTasks(tasks, FoldTasks(Empty(), stream), more);
    allDecisions := decisions.Items();
    allQuestions := questions.Items();
  }

  method CompileCognitiveHead(project: string, store: Store, manager: Manager, saveSucceeds: bool) returns (head: Option<Head>)
    requires DictsOk(store.Db())
    modifies store`snapshots
    ensures (store.Db(), head) == Compile(old(store.Db()), project, manager, saveSucceeds)
  {
    var outcome := BuildProjection(store.Db(), project, manager);
    if outcome.MissingBootstrap? { return None; }
    head := Some(outcome.result.head);
    if manager.NullManager? { return; }
    var allTasks, allDecisions, allQuestions := FullState(Stream(store.events, project, 0));
    var current := LatestSequence(store.events, project);
    var payload := FromHead(head.value, current, State(NewProject, allTasks, allDecisions, allQuestions));
    if ShouldSnapshot(manager.threshold, current, LastSequence(store.snapshots, project)) && saveSucceeds {
      store.SaveSnapshot(project, payload.WithHash());
    }
  }
}
