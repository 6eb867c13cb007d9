/**
 The reducers as the program runs them: dicts of mutable state objects, updated in place.
 Each loop is proved to leave exactly the state that the pure folds of module Folds compute.
 */
module Reducers {
  import opened Wrappers
  import opened OrderedMaps
  import opened Folds
  import opened LiveObjects
  import opened SharedNotes

  /** A state object: an instance of one of the state dataclasses, with identity. */
  class Entry<V> {
    ghost const key: string
    var value: V

    constructor (ghost k: string, v: V)
      ensures key == k && value == v
    {
      key, value := k, v;
    }
  }

  /** A dict from ids to state objects. An object stays under the key it was created for. */
  class Dict<V> {
    var keys: seq<string>
    var at: map<string, Entry<V>>
    ghost var objects: set<Entry<V>>
    ghost var contents: OMap<V>

    ghost predicate Valid()
      reads this, objects
    {
      && keys == contents.keys
      && at.Keys == contents.at.Keys
      && (forall k | k in at :: at[k] in objects && at[k].key == k && at[k].value == contents.at[k])
    }

    constructor ()
      ensures Valid() && contents == Empty() && objects == {}
    {
      keys, at, objects, contents := [], map[], {}, Empty();
    }

    /** A new object under the key. */
    method Put(k: string, v: V)
      requires Valid()
      modifies this
      ensures Valid() && contents == Set(old(contents), k, v)
      ensures k in at && fresh(at[k]) && at == old(at)[k := at[k]] && objects == old(objects) + {at[k]}
    {
      var e := new Entry(k, v);
      if k !in at { keys := keys + [k]; }
      at, objects, contents := at[k := e], objects + {e}, Set(contents, k, v);
    }

    /** An existing object under the key. */
    method Adopt(k: string, e: Entry<V>)
      requires Valid() && e.key == k
      modifies this
      ensures Valid() && contents == Set(old(contents), k, e.value)
      ensures at == old(at)[k := e] && objects == old(objects) + {e}
    {
      if k !in at { keys := keys + [k]; }
      at, objects, contents := at[k := e], objects + {e}, Set(contents, k, e.value);
    }

    /** Assignments to the fields of the object under the key. */
    method Update(k: string, v: V)
      requires Valid() && k in at
      modifies this`contents, at[k]
      ensures Valid() && contents == Set(old(contents), k, v)
    {
      at[k].value := v;
      contents := Set(contents, k, v);
    }

    /** The present values, in order. */
    method Items() returns (m: OMap<V>)
      requires Valid()
      ensures m == contents
    {
      assert (map k | k in at :: at[k].value) == contents.at;
      m := OMap(keys, map k | k in at :: at[k].value);
    }
  }

  /** An item keeps its object unless the event makes it again. */
  ghost predicate KeepsObjects<V>(makes: (Event, string) -> bool, before: map<string, Entry<V>>, after: map<string, Entry<V>>, v: Event) {
    forall k | k in before && !makes(v, k) :: k in after && after[k] == before[k]
  }

  /** An item keeps its object unless one of the events makes it again. */
  ghost predicate KeptObjects<V>(makes: (Event, string) -> bool, before: map<string, Entry<V>>, after: map<string, Entry<V>>, vals: seq<Event>) {
    forall k | k in before && !MadeIn(makes, vals, k) :: k in after && after[k] == before[k]
  }

  // Each `reduce` takes the initial state as the object it updates; a call
  // without an initial state passes a new one. The ghost `vals` are the events as they are on entry.

  /** `ProjectReducer.reduce` */
  method ReduceProject(events: seq<LiveEvent>, state: Entry<Project>, ghost vals: seq<Event>, ghost lists: set<NoteList>)
    requires DenoteAll(lists, events, vals)
    modifies state
    ensures state.value == Fold(StepProject, old(state.value), vals)
  {
    ghost var start := state.value;
    for i := 0 to |events|
      invariant state.value == Fold(StepProject, start, vals[..i])
    {
      FoldSnoc(StepProject, start, vals, i);
      assert old(Denotes(events[i], vals[i]));
      var e := events[i].event;
      match e.body {
        case ProjectCreated(name) =>
          state.value := state.value.(name := name.GetOr(""));
          state.value := state.value.(createdAt := e.recordedAt, createdBy := e.actor);
        case ProjectGoalSet(goal) => state.value := state.value.(goal := goal.GetOr(""));
        case ProjectFocusChanged(focus) => state.value := state.value.(currentFocus := focus.GetOr(""));
        case _ =>
      }
    }
    assert vals[..|events|] == vals;
  }

  // ----- Tasks: what one event does to the dict

  /** A list of notes is neither a dict nor a state object. */
  lemma ListsAreApart(lists: set<NoteList>, tasks: Dict<LiveTask>)
    ensures var ls: set<object>, os: set<object> := lists, tasks.objects; ls !! os && tasks !in ls
  {
  }

  /** The task named by the event. */
  function TaskNamed(e: Event): string {
    if e.body.TaskCreated? then e.body.taskId else TaskTouched(e)
  }

  /** The event ignores the tasks: no id, or an unknown one. */
  predicate Ignored(m: OMap<Task>, e: Event) {
    TaskNamed(e) == "" || (!e.body.TaskCreated? && TaskNamed(e) !in m.at)
  }

  /** The event appends a note to the list of a known task. */
  predicate Noting(m: OMap<Task>, e: Event) {
    e.body.TaskProgressNoted? && !Ignored(m, e)
  }

  /** The loop of `setattr`. */
  method AssignItems(items: seq<LiveUpdate>, id: string, tasks: Dict<LiveTask>)
    requires tasks.Valid() && id in tasks.at
    modifies tasks, tasks.objects
    ensures tasks.Valid() && tasks.objects == old(tasks.objects) && tasks.at == old(tasks.at)
    ensures tasks.contents == Set(old(tasks.contents), id, Fold(ApplyItem, old(tasks.contents).at[id], items))
  {
    ghost var before, t := tasks.contents, tasks.contents.at[id];
    SetSame(before, id);
    for j := 0 to |items|
      invariant tasks.Valid() && tasks.objects == old(tasks.objects) && tasks.at == old(tasks.at)
      invariant tasks.contents == Set(before, id, Fold(ApplyItem, t, items[..j]))
    {
      FoldSnoc(ApplyItem, t, items, j);
      SetTwice(before, id, tasks.at[id].value, ApplyItem(tasks.at[id].value, items[j]));
      tasks.Update(id, ApplyItem(tasks.at[id].value, items[j]));
    }
    assert items[..|items|] == items;
  }

  /** What the object of a known task refers to and holds after TASK_MUTATED or TASK_COMPLETED. */
  function Touched(t: LiveTask, e: LiveEvent): LiveTask {
    match e.event.body
    case TaskMutated(_, _) =>
      var r := Fold(ApplyItem, t, e.items);
      r.(fields := r.fields.(updatedAt := e.event.recordedAt))
    case TaskCompleted(_) => t.(fields := t.fields.(status := "completed", completedAt := e.event.recordedAt))
    case _ => t
  }

  /** The TASK_MUTATED branch: an assignment for each item of the payload, then the time. */
  method MutateTask(e: LiveEvent, tasks: Dict<LiveTask>)
    requires tasks.Valid() && e.event.body.TaskMutated? && e.event.body.taskId in tasks.at
    modifies tasks, tasks.objects
    ensures tasks.Valid() && tasks.objects == old(tasks.objects) && tasks.at == old(tasks.at)
    ensures var k, was := e.event.body.taskId, old(tasks.contents); tasks.contents == Set(was, k, Touched(was.at[k], e))
  {
    var id := e.event.body.taskId;
    ghost var was := tasks.contents;
    AssignItems(e.items, id, tasks);
    var u := tasks.at[id].value;
    var t := u.(fields := u.fields.(updatedAt := e.event.recordedAt));
    SetTwice(was, id, u, t);
    tasks.Update(id, t);
  }

  /** The TASK_COMPLETED branch. */
  method CompleteTask(e: LiveEvent, tasks: Dict<LiveTask>)
    requires tasks.Valid() && e.event.body.TaskCompleted? && e.event.body.taskId in tasks.at
    modifies tasks, tasks.objects
    ensures tasks.Valid() && tasks.objects == old(tasks.objects) && tasks.at == old(tasks.at)
    ensures var k, was := e.event.body.taskId, old(tasks.contents); tasks.contents == Set(was, k, Touched(was.at[k], e))
  {
    var u := tasks.at[e.event.body.taskId].value;
    tasks.Update(e.event.body.taskId, u.(fields := u.fields.(status := "completed", completedAt := e.event.recordedAt)));
  }

  /** The object of a known task stands for the touched task. */
  lemma TouchedPresent(t: LiveTask, e: LiveEvent, v: Event)
    requires Denotes(e, v) && (v.body.TaskMutated? || v.body.TaskCompleted?) && v.body.taskId != ""
    ensures Present(Touched(t, e)) == TouchTask(Present(t), v)
    ensures Some(Touched(t, e).list) == if Reassigns(v, v.body.taskId) then LastList(e) else Some(t.list)
  {
    if v.body.TaskMutated? {
      ItemsPresent(t, e.items, v.body.updates);
      LastListedIsAssigned(e.items, v.body.updates);
    }
  }

  // ----- Tasks: which list is whose, while the events are reduced

  /** The events when the first `j` of them have been reduced. */
  ghost function Partly(start: OMap<Task>, vals: seq<Event>, j: nat): seq<Event>
    requires j <= |vals|
  {
    After(start, vals[..j]) + vals[j..]
  }

  /** The events with a note more in the list of one of them, if any. */
  ghost function Lengthened(vs: seq<Event>, o: Option<nat>, note: Note): seq<Event>
    requires o.Some? ==> o.value < |vs| && Reassigns(vs[o.value], TaskNamed(vs[o.value]))
  {
    if o.None? then vs else vs[o.value := Relisted(vs[o.value], ListIn(vs[o.value]) + [note])]
  }

  lemma PartlyStep(start: OMap<Task>, vals: seq<Event>, j: nat)
    requires j < |vals|
    ensures Partly(start, vals, j)[j] == vals[j] && |Partly(start, vals, j)| == |vals|
    ensures var o, r := Written(start, vals[..j + 1]), Partly(start, vals, j);
            && (o.Some? ==> o.value < j && Reassigns(r[o.value], TaskNamed(r[o.value])) && vals[j].body.TaskProgressNoted?)
            && Partly(start, vals, j + 1) == if o.None? then r else Lengthened(r, o, NewNote(vals[j]))
  {
    var es, x := vals[..j + 1], After(start, vals[..j]);
    assert es[..j] == vals[..j] && es[j] == vals[j];
    NextInPlace(x, vals, j);
    if Written(start, es).Some? {
      WrittenReassigns(start, es);
      var o := Written(start, es).value;
      UpdateInFront(x, vals, j, o, Relisted(x[o], ListIn(x[o]) + [NewNote(vals[j])]));
    }
  }

  lemma NextInPlace<T>(x: seq<T>, vals: seq<T>, j: nat)
    requires j < |vals| && |x| == j
    ensures x + vals[j..] == (x + [vals[j]]) + vals[j + 1..]
  {
  }

  lemma UpdateInFront<T>(x: seq<T>, vals: seq<T>, j: nat, o: nat, z: T)
    requires o < j < |vals| && |x| == j
    ensures (x + [vals[j]])[o := z] + vals[j + 1..] == (x + vals[j..])[o := z]
  {
  }

  /** The list of a task is that of the event which it owes it to, or in no event. */
  ghost predicate HoldsList(list: NoteList, events: seq<LiveEvent>, o: Option<nat>) {
    match o
    case Some(i) => i < |events| && LastList(events[i]) == Some(list)
    case None => forall i | 0 <= i < |events| :: list !in ListsIn(events[i])
  }

  ghost predicate HoldLists(m: OMap<LiveTask>, events: seq<LiveEvent>, start: OMap<Task>, vals: seq<Event>) {
    forall k | k in m.at :: HoldsList(m.at[k].list, events, Owner(start, vals, k))
  }

  /** The state of the loop after `j` events; `lists` are all the lists there are. */
  ghost predicate Reducing(lists: set<NoteList>, events: seq<LiveEvent>, m: OMap<LiveTask>, start: OMap<Task>, vals: seq<Event>, j: nat)
    requires j <= |vals|
    reads lists
  {
    && DenoteAll(lists, events, Partly(start, vals, j)) && TasksAre(lists, m, FoldTasks(start, vals[..j]))
    && OwnLists(m) && HoldLists(m, events, start, vals[..j])
  }

  /** The next event is as it was, and shares no list with the tasks. */
  lemma NextIsReady(lists: set<NoteList>, events: seq<LiveEvent>, m: OMap<LiveTask>, start: OMap<Task>, vals: seq<Event>, j: nat)
    requires j < |vals| && Separate(events) && Reducing(lists, events, m, start, vals, j)
    ensures |events| == |vals| && Denotes(events[j], vals[j])
    ensures forall k | k in m.at :: m.at[k].list !in ListsIn(events[j])
  {
    PartlyStep(start, vals, j);
    forall k | k in m.at ensures m.at[k].list !in ListsIn(events[j]) {
      assert HoldsList(m.at[k].list, events, Owner(start, vals[..j], k));
      if Owner(start, vals[..j], k).Some? {
        OwnerReassigns(start, vals[..j], k);
        LastListIn(events[Owner(start, vals[..j], k).value]);
      }
    }
  }

  /** Which list the named task refers to after an event that is not ignored. */
  ghost predicate ListAfter(list: NoteList, was: OMap<LiveTask>, events: seq<LiveEvent>, v: Event, j: nat)
    requires j < |events| && (v.body.TaskCreated? || TaskNamed(v) in was.at)
  {
    if v.body.TaskCreated? then forall i | 0 <= i < |events| :: list !in ListsIn(events[i])
    else Some(list) == if Reassigns(v, TaskNamed(v)) then LastList(events[j]) else Some(was.at[TaskNamed(v)].list)
  }

  /** One more event that changes no list: the loop state with the new task in place. */
  lemma SetNext(lists: set<NoteList>, events: seq<LiveEvent>, was: OMap<LiveTask>, t: LiveTask, start: OMap<Task>, vals: seq<Event>, j: nat)
    requires j < |events| == |vals| && Separate(events) && Reducing(lists, events, was, start, vals, j) && t.list in lists
    requires var m, v := FoldTasks(start, vals[..j]), vals[j];
             && !v.body.TaskProgressNoted? && !Ignored(m, v)
             && Present(t) == (if v.body.TaskCreated? then NewTask(v) else TouchTask(m.at[TaskNamed(v)], v))
             && (v.body.TaskCreated? ==> forall k | k in was.at :: was.at[k].list != t.list)
             && ListAfter(t.list, was, events, v, j)
    ensures Reducing(lists, events, Set(was, TaskNamed(vals[j]), t), start, vals, j + 1)
  {
    var m, v, k := FoldTasks(start, vals[..j]), vals[j], TaskNamed(vals[j]);
    NextIsReady(lists, events, was, start, vals, j);
    PartlyStep(start, vals, j);
    FoldSnoc(StepTasks, start, vals, j);
    TasksAreSet(lists, was, m, k, t);
    LastListIn(events[j]);
    OwnListsSet(was, k, t);
    HoldListsSet(events, was, t, start, vals, j);
  }

  lemma HoldListsSet(events: seq<LiveEvent>, was: OMap<LiveTask>, t: LiveTask, start: OMap<Task>, vals: seq<Event>, j: nat)
    requires j < |events| == |vals| && HoldLists(was, events, start, vals[..j])
    requires was.at.Keys == FoldTasks(start, vals[..j]).at.Keys && !Ignored(FoldTasks(start, vals[..j]), vals[j])
    requires ListAfter(t.list, was, events, vals[j], j)
    ensures HoldLists(Set(was, TaskNamed(vals[j]), t), events, start, vals[..j + 1])
  {
    assert vals[..j + 1][..j] == vals[..j];
    var after := Set(was, TaskNamed(vals[j]), t);
    forall k | k in after.at ensures HoldsList(after.at[k].list, events, Owner(start, vals[..j + 1], k)) {
      if k in was.at { assert HoldsList(was.at[k].list, events, Owner(start, vals[..j], k)); }
    }
  }

  lemma HoldListsKept(events: seq<LiveEvent>, m: OMap<LiveTask>, start: OMap<Task>, vals: seq<Event>, j: nat)
    requires j < |events| == |vals| && HoldLists(m, events, start, vals[..j])
    requires m.at.Keys == FoldTasks(start, vals[..j]).at.Keys
    requires vals[j].body.TaskProgressNoted? || Ignored(FoldTasks(start, vals[..j]), vals[j])
    ensures HoldLists(m, events, start, vals[..j + 1])
  {
    assert vals[..j + 1][..j] == vals[..j];
    forall k | k in m.at ensures HoldsList(m.at[k].list, events, Owner(start, vals[..j + 1], k)) {
      assert HoldsList(m.at[k].list, events, Owner(start, vals[..j], k));
    }
  }

  /** An ignored event leaves everything as it is. */
  lemma SkipEvent(lists: set<NoteList>, events: seq<LiveEvent>, m: OMap<LiveTask>, start: OMap<Task>, vals: seq<Event>, j: nat)
    requires j < |events| == |vals| && Reducing(lists, events, m, start, vals, j)
    requires Ignored(FoldTasks(start, vals[..j]), vals[j])
    ensures Reducing(lists, events, m, start, vals, j + 1)
  {
    PartlyStep(start, vals, j);
    FoldSnoc(StepTasks, start, vals, j);
    assert vals[..j + 1][..j] == vals[..j];
    HoldListsKept(events, m, start, vals, j);
  }

  // ----- Tasks: the branches of the loop

  /** The TASK_CREATED branch: a new object with a new list. */
  method CreateTask(events: seq<LiveEvent>, tasks: Dict<LiveTask>, ghost start: OMap<Task>, ghost vals: seq<Event>, j: nat, ghost lists: set<NoteList>)
    returns (ghost made: NoteList)
    requires j < |events| == |vals| && tasks.Valid() && Separate(events) && Reducing(lists, events, tasks.contents, start, vals, j)
    requires vals[j].body.TaskCreated? && !Ignored(FoldTasks(start, vals[..j]), vals[j])
    modifies tasks
    ensures tasks.Valid() && fresh(tasks.objects - old(tasks.objects)) && fresh(made)
    ensures Reducing(lists + {made}, events, tasks.contents, start, vals, j + 1)
    ensures KeepsObjects(Recreates, old(tasks.at), tasks.at, vals[j])
  {
    NextIsReady(lists, events, tasks.contents, start, vals, j);
    var e := events[j].event;
    var list := new NoteList([]);
    made := list;
    MoreLists(lists, made, events, tasks.contents, start, vals, j);
    SetNext(lists + {made}, events, tasks.contents, LiveTask(NewTask(e), list), start, vals, j);
    ghost var after := Set(tasks.contents, e.body.taskId, LiveTask(NewTask(e), list));
    AddObject(e.body.taskId, LiveTask(NewTask(e), list), tasks, after, lists + {made});
    assert Reducing(lists + {made}, events, after, start, vals, j + 1);
  }

  /** A new object in the dict; no list changes. */
  method AddObject(id: string, t: LiveTask, tasks: Dict<LiveTask>, ghost after: OMap<LiveTask>, ghost lists: set<NoteList>)
    requires tasks.Valid() && after == Set(tasks.contents, id, t)
    modifies tasks
    ensures tasks.Valid() && fresh(tasks.objects - old(tasks.objects)) && tasks.contents == after
    ensures forall k | k in old(tasks.at) && k != id :: k in tasks.at && tasks.at[k] == old(tasks.at)[k]
    ensures unchanged(lists)
  {
    ListsAreApart(lists, tasks);
    tasks.Put(id, t);
  }

  lemma MoreLists(lists: set<NoteList>, l: NoteList, events: seq<LiveEvent>, m: OMap<LiveTask>, start: OMap<Task>, vals: seq<Event>, j: nat)
    requires j <= |vals| && Reducing(lists, events, m, start, vals, j)
    ensures Reducing(lists + {l}, events, m, start, vals, j)
  {
  }

  /** The branches that assign to the fields of a known task. */
  method TouchTaskObject(events: seq<LiveEvent>, tasks: Dict<LiveTask>, ghost start: OMap<Task>, ghost vals: seq<Event>, j: nat, ghost lists: set<NoteList>)
    requires j < |events| == |vals| && tasks.Valid() && Separate(events) && Reducing(lists, events, tasks.contents, start, vals, j)
    requires (vals[j].body.TaskMutated? || vals[j].body.TaskCompleted?) && !Ignored(FoldTasks(start, vals[..j]), vals[j])
    modifies tasks, tasks.objects
    ensures tasks.Valid() && tasks.objects == old(tasks.objects) && tasks.at == old(tasks.at)
    ensures Reducing(lists, events, tasks.contents, start, vals, j + 1)
  {
    TouchNext(lists, events, tasks.contents, start, vals, j);
    ghost var after := Set(tasks.contents, TaskNamed(vals[j]), Touched(tasks.contents.at[TaskNamed(vals[j])], events[j]));
    AssignFields(events[j], tasks, after, lists);
    assert Reducing(lists, events, after, start, vals, j + 1);
  }

  method AssignFields(e: LiveEvent, tasks: Dict<LiveTask>, ghost after: OMap<LiveTask>, ghost lists: set<NoteList>)
    requires tasks.Valid() && (e.event.body.TaskMutated? || e.event.body.TaskCompleted?) && TaskNamed(e.event) in tasks.at
    requires after == Set(tasks.contents, TaskNamed(e.event), Touched(tasks.contents.at[TaskNamed(e.event)], e))
    modifies tasks, tasks.objects
    ensures tasks.Valid() && tasks.objects == old(tasks.objects) && tasks.at == old(tasks.at) && tasks.contents == after
    ensures unchanged(lists)
  {
    ListsAreApart(lists, tasks);
    if e.event.body.TaskMutated? {
      MutateTask(e, tasks);
    } else {
      CompleteTask(e, tasks);
    }
  }

  lemma TouchNext(lists: set<NoteList>, events: seq<LiveEvent>, was: OMap<LiveTask>, start: OMap<Task>, vals: seq<Event>, j: nat)
    requires j < |events| == |vals| && Separate(events) && Reducing(lists, events, was, start, vals, j)
    requires (vals[j].body.TaskMutated? || vals[j].body.TaskCompleted?) && !Ignored(FoldTasks(start, vals[..j]), vals[j])
    ensures var e := events[j].event; (e.body.TaskMutated? || e.body.TaskCompleted?) && TaskNamed(e) == TaskNamed(vals[j]) && TaskNamed(e) in was.at
    ensures var k := TaskNamed(vals[j]); Reducing(lists, events, Set(was, k, Touched(was.at[k], events[j])), start, vals, j + 1)
  {
    NextIsReady(lists, events, was, start, vals, j);
    PartlyStep(start, vals, j);
    var k := TaskNamed(vals[j]);
    TouchedPresent(was.at[k], events[j], vals[j]);
    ReassignedList(events[j], vals[j], k);
    SetNext(lists, events, was, Touched(was.at[k], events[j]), start, vals, j);
  }

  /** `append`, on a list that may be that of an event payload. */
  method AppendNote(l: NoteList, note: Note, ghost events: seq<LiveEvent>, ghost vs: seq<Event>, ghost o: Option<nat>, ghost lists: set<NoteList>)
    requires DenoteAll(lists, events, vs) && Separate(events) && HoldsList(l, events, o)
    requires o.Some? ==> o.value < |vs| && Reassigns(vs[o.value], TaskNamed(vs[o.value]))
    modifies l
    ensures l.notes == old(l.notes) + [note]
    ensures DenoteAll(lists, events, Lengthened(vs, o, note))
  {
    if o.Some? { ReassignedList(events[o.value], vs[o.value], TaskNamed(vs[o.value])); }
    l.notes := l.notes + [note];
    if o.Some? {
      ghost var e, v := events[o.value], vs[o.value];
      forall q | 0 <= q < |e.items| && q != LastListed(e.items).value ensures ItemIs(e.items[q], v.body.updates[q]) {
        assert old(ItemIs(e.items[q], v.body.updates[q]));
      }
      assert old(ItemIs(e.items[LastListed(e.items).value], v.body.updates[LastListed(e.items).value]));
      DenotesLonger(e, v, note);
    }
    forall i | 0 <= i < |events| && o != Some(i) ensures Denotes(events[i], vs[i]) {
      assert old(Denotes(events[i], vs[i])) && l !in ListsIn(events[i]);
    }
  }

  /** The TASK_PROGRESS_NOTED branch: `append` on the list that the task refers to. */
  method NoteProgress(events: seq<LiveEvent>, tasks: Dict<LiveTask>, ghost start: OMap<Task>, ghost vals: seq<Event>, j: nat, ghost lists: set<NoteList>)
    requires j < |events| == |vals| && tasks.Valid() && Separate(events) && Reducing(lists, events, tasks.contents, start, vals, j)
    requires Noting(FoldTasks(start, vals[..j]), vals[j])
    modifies lists
    ensures tasks.Valid() && Reducing(lists, events, tasks.contents, start, vals, j + 1)
  {
    ghost var m, k := FoldTasks(start, vals[..j]), TaskNamed(vals[j]);
    NextIsReady(lists, events, tasks.contents, start, vals, j);
    PartlyStep(start, vals, j);
    FoldSnoc(StepTasks, start, vals, j);
    assert vals[..j + 1][..j] == vals[..j];
    HoldListsKept(events, tasks.contents, start, vals, j);
    assert HoldsList(tasks.contents.at[k].list, events, Owner(start, vals[..j], k));
    var e := events[j].event;
    ListsAreApart(lists, tasks);
    AppendToTask(tasks, m, k, tasks.at[e.body.taskId].value.list, NewNote(e), events, Partly(start, vals, j), Owner(start, vals[..j], k), lists);
  }

  method AppendToTask(ghost tasks: Dict<LiveTask>, ghost m: OMap<Task>, ghost k: string, l: NoteList, note: Note,
                      ghost events: seq<LiveEvent>, ghost vs: seq<Event>, ghost o: Option<nat>, ghost lists: set<NoteList>)
    requires TasksAre(lists, tasks.contents, m) && OwnLists(tasks.contents) && k in tasks.contents.at && tasks.contents.at[k].list == l
    requires DenoteAll(lists, events, vs) && Separate(events) && HoldsList(l, events, o)
    requires o.Some? ==> o.value < |vs| && Reassigns(vs[o.value], TaskNamed(vs[o.value]))
    modifies l
    ensures unchanged(tasks) && unchanged(tasks.objects)
    ensures DenoteAll(lists, events, Lengthened(vs, o, note))
    ensures TasksAre(lists, tasks.contents, Set(m, k, m.at[k].(progressNotes := m.at[k].progressNotes + [note])))
  {
    ghost var contents := tasks.contents;
    ListsAreApart({l}, tasks);
    AppendNote(l, note, events, vs, o, lists);
    forall i | i in m.at && i != k ensures Present(contents.at[i]) == m.at[i] {
      assert old(Present(contents.at[i])) == m.at[i];
    }
    assert old(Present(contents.at[k])) == m.at[k];
  }

  /** Which branch the next event takes, on the objects and on the values. */
  lemma NextBranch(lists: set<NoteList>, events: seq<LiveEvent>, m: OMap<LiveTask>, start: OMap<Task>, vals: seq<Event>, j: nat)
    requires j < |events| == |vals| && Separate(events) && Reducing(lists, events, m, start, vals, j)
    ensures var e, v, ignored := events[j].event, vals[j], Ignored(FoldTasks(start, vals[..j]), vals[j]);
            && (ignored <==> TaskNamed(e) == "" || (!e.body.TaskCreated? && TaskNamed(e) !in m.at))
            && (e.body.TaskCreated? <==> v.body.TaskCreated?) && (e.body.TaskProgressNoted? <==> v.body.TaskProgressNoted?)
            && (!ignored && !v.body.TaskCreated? && !v.body.TaskProgressNoted? ==> v.body.TaskMutated? || v.body.TaskCompleted?)
  {
    NextIsReady(lists, events, m, start, vals, j);
  }

  /** The loop body, one branch for each kind of event. */
  method ApplyTaskEvent(events: seq<LiveEvent>, tasks: Dict<LiveTask>, ghost start: OMap<Task>, ghost vals: seq<Event>, j: nat, ghost lists: set<NoteList>)
    returns (ghost more: set<NoteList>)
    requires j < |events| == |vals| && tasks.Valid() && Separate(events) && Reducing(lists, events, tasks.contents, start, vals, j)
    modifies tasks, tasks.objects, lists
    ensures tasks.Valid() && fresh(tasks.objects - old(tasks.objects)) && lists <= more && fresh(more - lists)
    ensures Reducing(more, events, tasks.contents, start, vals, j + 1)
    ensures KeepsObjects(Recreates, old(tasks.at), tasks.at, vals[j])
  {
    NextBranch(lists, events, tasks.contents, start, vals, j);
    more := lists;
    var e := events[j].event;
    var id := TaskNamed(e);
    if id == "" || (!e.body.TaskCreated? && id !in tasks.at) {
      SkipEvent(lists, events, tasks.contents, start, vals, j);
    } else if e.body.TaskCreated? {
      ghost var made := CreateTask(events, tasks, start, vals, j, lists);
      more := lists + {made};
    } else if e.body.TaskProgressNoted? {
      NoteProgress(events, tasks, start, vals, j, lists);
    } else {
      TouchTaskObject(events, tasks, start, vals, j, lists);
    }
  }

  /**
   `TaskReducer.reduce`: the tasks afterwards are the fold of the events as they were, and the
   events are what `After` says. Only the dict, its objects, the lists of the tasks and those in
   the events can change.
   */
  method ReduceTasks(events: seq<LiveEvent>, tasks: Dict<LiveTask>, ghost start: OMap<Task>, ghost vals: seq<Event>, ghost lists: set<NoteList>)
    returns (ghost more: set<NoteList>)
    requires tasks.Valid() && TasksAre(lists, tasks.contents, start) && OwnLists(tasks.contents)
    requires DenoteAll(lists, events, vals) && Separate(events) && EventLists(events) !! TaskLists(tasks.contents)
    requires lists == TaskLists(tasks.contents) + EventLists(events)
    modifies tasks, tasks.objects, lists
    ensures tasks.Valid() && fresh(tasks.objects - old(tasks.objects)) && lists <= more && fresh(more - lists)
    ensures TasksAre(more, tasks.contents, FoldTasks(start, vals)) && OwnLists(tasks.contents)
    ensures DenoteAll(more, events, After(start, vals)) && HoldLists(tasks.contents, events, start, vals)
    ensures KeptObjects(Recreates, old(tasks.at), tasks.at, vals)
  {
    more := lists;
    ReducingStarts(lists, events, tasks.contents, start, vals);
    for j := 0 to |events|
      invariant tasks.Valid() && fresh(tasks.objects - old(tasks.objects)) && lists <= more && fresh(more - lists)
      invariant Reducing(more, events, tasks.contents, start, vals, j)
      invariant KeptObjects(Recreates, old(tasks.at), tasks.at, vals[..j])
    {
      assert vals[..j + 1][..j] == vals[..j];
      more := ApplyTaskEvent(events, tasks, start, vals, j, more);
    }
    assert vals[..|vals|] == vals && After(start, vals) + [] == After(start, vals);
  }

  /** What a task of the first result is once the same events have been reduced again. */
  lemma FirstAfterSecond(t: LiveTask, events: seq<LiveEvent>, vals: seq<Event>, lists: set<NoteList>, k: string)
    requires TaskKnown(Empty(), vals, k) && HoldsList(t.list, events, Owner(Empty(), vals, k))
    requires DenoteAll(lists, events, After(Empty(), After(Empty(), vals)))
    requires Unnoted(t.fields) == Unnoted(FoldTasks(Empty(), vals).at[k])
    requires Owner(Empty(), vals, k).None? ==> t.list.notes == FoldTasks(Empty(), vals).at[k].progressNotes
    ensures TaskKnown(Empty(), After(Empty(), vals), k) && Present(t) == FoldTasks(Empty(), After(Empty(), vals)).at[k]
  {
    var again := After(Empty(), vals);
    AfterAlike(Empty(), vals);
    FoldApart(Empty(), vals, again);
    HeldApart(Empty(), vals, again, k);
    NotesAgain(Empty(), vals, k);
    var a, b := FoldTasks(Empty(), vals).at[k], FoldTasks(Empty(), again).at[k];
    assert Unnoted(a) == Unnoted(b);
    if Owner(Empty(), vals, k).Some? {
      var o := Owner(Empty(), vals, k).value;
      HeldListGrown(Empty(), again, k);
      ListOfReassigning(events[o], After(Empty(), again)[o], k);
      NotesAre(Empty(), again, k);
      BaseOfOwner(Empty(), again, k);
    }
    assert Present(t) == Unnoted(t.fields).(progressNotes := t.list.notes);
    assert b == Unnoted(b).(progressNotes := b.progressNotes);
  }

  lemma FirstTasksAfterSecond(one: set<NoteList>, m: OMap<LiveTask>, before: map<string, Task>, events: seq<LiveEvent>, vals: seq<Event>, lists: set<NoteList>)
    requires m.keys == FoldTasks(Empty(), vals).keys && m.at.Keys == FoldTasks(Empty(), vals).at.Keys && before == FoldTasks(Empty(), vals).at
    requires HoldLists(m, events, Empty(), vals) && DenoteAll(lists, events, After(Empty(), After(Empty(), vals)))
    requires forall k | k in m.at ::
               && m.at[k].list in one && Unnoted(m.at[k].fields) == Unnoted(before[k])
               && (m.at[k].list !in EventLists(events) ==> Present(m.at[k]) == before[k])
    ensures TasksAre(one, m, FoldTasks(Empty(), After(Empty(), vals)))
  {
    AfterAlike(Empty(), vals);
    FoldApart(Empty(), vals, After(Empty(), vals));
    forall k | k in m.at ensures Present(m.at[k]) == FoldTasks(Empty(), After(Empty(), vals)).at[k] {
      assert HoldsList(m.at[k].list, events, Owner(Empty(), vals, k));
      if Owner(Empty(), vals, k).None? {
        assert m.at[k].list !in EventLists(events);
        assert Present(m.at[k]).progressNotes == before[k].progressNotes;
      }
      FirstAfterSecond(m.at[k], events, vals, lists, k);
    }
  }

  /** A second reduce of the same events into a new dict; `m` are the tasks of the first. */
  method ReduceAgain(events: seq<LiveEvent>, ghost vals: seq<Event>, ghost lists: set<NoteList>, ghost m: OMap<LiveTask>, ghost one: set<NoteList>)
    returns (second: Dict<LiveTask>, ghost two: set<NoteList>)
    requires DenoteAll(lists, events, After(Empty(), vals)) && Separate(events) && lists == EventLists(events)
    requires TasksAre(one, m, FoldTasks(Empty(), vals)) && HoldLists(m, events, Empty(), vals)
    modifies lists
    ensures TasksAre(two, second.contents, FoldTasks(Empty(), After(Empty(), vals)))
    ensures TasksAre(one, m, FoldTasks(Empty(), After(Empty(), vals)))
  {
    ghost var before := FoldTasks(Empty(), vals).at;
    assert forall k | k in m.at :: Present(m.at[k]) == before[k];
    second := new Dict();
    two := ReduceTasks(events, second, Empty(), After(Empty(), vals), lists);
    forall k | k in m.at && m.at[k].list !in EventLists(events) ensures Present(m.at[k]) == before[k] {
      assert old(Present(m.at[k])) == before[k];
    }
    FirstTasksAfterSecond(one, m, before, events, vals, two);
  }

  /**
   The same event objects reduced twice, each time from nothing. The second result, and by then the
   first one too, is the fold of the events as the first reduce left them; it is the fold of the
   events as they were exactly if no task ends up with a payload list that has been appended to.
   */
  method ReduceTasksTwice(events: seq<LiveEvent>, ghost vals: seq<Event>, ghost lists: set<NoteList>)
    returns (ghost first: OMap<LiveTask>, second: Dict<LiveTask>, ghost one: set<NoteList>, ghost two: set<NoteList>)
    requires DenoteAll(lists, events, vals) && Separate(events) && lists == EventLists(events)
    modifies lists
    ensures TasksAre(two, second.contents, FoldTasks(Empty(), After(Empty(), vals)))
    ensures TasksAre(one, first, FoldTasks(Empty(), After(Empty(), vals)))
    ensures TasksAre(two, second.contents, FoldTasks(Empty(), vals)) <==> Undisturbed(Empty(), vals)
  {
    var tasks := new Dict();
    one := ReduceTasks(events, tasks, Empty(), vals, lists);
    first := tasks.contents;
    FewerLists(one, events, After(Empty(), vals));
    second, two := ReduceAgain(events, vals, lists, first, one);
    ReduceTwiceExact(Empty(), vals);
    OneValue(two, second.contents, FoldTasks(Empty(), After(Empty(), vals)), FoldTasks(Empty(), vals));
  }

  lemma OneValue(lists: set<NoteList>, m: OMap<LiveTask>, v: OMap<Task>, w: OMap<Task>)
    requires TasksAre(lists, m, v)
    ensures TasksAre(lists, m, w) <==> v == w
  {
    if TasksAre(lists, m, w) { assert v.at == w.at; }
  }

  lemma ReducingStarts(lists: set<NoteList>, events: seq<LiveEvent>, m: OMap<LiveTask>, start: OMap<Task>, vals: seq<Event>)
    requires TasksAre(lists, m, start) && OwnLists(m) && DenoteAll(lists, events, vals) && EventLists(events) !! TaskLists(m)
    ensures Reducing(lists, events, m, start, vals, 0)
  {
    assert Partly(start, vals, 0) == vals;
    forall k | k in m.at ensures HoldsList(m.at[k].list, events, None) {
      assert m.at[k].list in TaskLists(m);
      forall i | 0 <= i < |events| ensures m.at[k].list !in ListsIn(events[i]) {
        assert forall l | l in ListsIn(events[i]) :: l in EventLists(events);
      }
    }
  }

  /** The body of the loop of `DecisionReducer.reduce`. */
  method ApplyDecisionEvent(e: Event, decisions: Dict<Decision>)
    requires decisions.Valid()
    modifies decisions, decisions.objects
    ensures decisions.Valid() && decisions.contents == StepDecisions(old(decisions.contents), e)
    ensures fresh(decisions.objects - old(decisions.objects)) && KeepsObjects(ProposesAgain, old(decisions.at), decisions.at, e)
  {
    match e.body {
      case DecisionProposed(id, _, _, _, _, _) =>
        if id == "" { return; }
        decisions.Put(id, NewDecision(e));
      case DecisionAccepted(id) =>
        if id == "" || id !in decisions.at { return; }
        var d := decisions.at[id].value;
        decisions.Update(id, d.(status := "accepted", acceptedAt := e.recordedAt));
      case DecisionSuperseded(id, successor) =>
        if id == "" || id !in decisions.at { return; }
        var d := decisions.at[id].value;
        decisions.Update(id, d.(status := "superseded", supersededBy := successor));
      case _ =>
    }
  }

  /** `DecisionReducer.reduce` */
  method ReduceDecisions(events: seq<LiveEvent>, decisions: Dict<Decision>, ghost vals: seq<Event>, ghost lists: set<NoteList>)
    requires decisions.Valid() && DenoteAll(lists, events, vals)
    modifies decisions, decisions.objects
    ensures decisions.Valid() && fresh(decisions.objects - old(decisions.objects))
    ensures decisions.contents == FoldDecisions(old(decisions.contents), vals)
    ensures KeptObjects(ProposesAgain, old(decisions.at), decisions.at, vals)
  {
    ghost var start := decisions.contents;
    for i := 0 to |events|
      invariant decisions.Valid() && fresh(decisions.objects - old(decisions.objects))
      invariant decisions.contents == FoldDecisions(start, vals[..i])
      invariant KeptObjects(ProposesAgain, old(decisions.at), decisions.at, vals[..i])
    {
      FoldSnoc(StepDecisions, start, vals, i);
      assert vals[..i + 1][..i] == vals[..i];
      assert old(Denotes(events[i], vals[i]));
      ApplyDecisionEvent(events[i].event, decisions);
    }
    assert vals[..|events|] == vals;
  }

  /** The body of the loop of `QuestionReducer.reduce`. */
  method ApplyQuestionEvent(e: Event, questions: Dict<Question>)
    requires questions.Valid()
    modifies questions, questions.objects
    ensures questions.Valid() && questions.contents == StepQuestions(old(questions.contents), e)
    ensures fresh(questions.objects - old(questions.objects)) && KeepsObjects(RaisesAgain, old(questions.at), questions.at, e)
  {
    match e.body {
      case QuestionRaised(id, _, _, _, _) =>
        if id == "" { return; }
        questions.Put(id, NewQuestion(e));
      case QuestionResolved(id, resolution) =>
        if id == "" || id !in questions.at { return; }
        var q := questions.at[id].value;
        questions.Update(id, q.(status := "resolved", resolution := Some(resolution.GetOr("")), resolvedAt := e.recordedAt));
      case _ =>
    }
  }

  /** `QuestionReducer.reduce` */
  method ReduceQuestions(events: seq<LiveEvent>, questions: Dict<Question>, ghost vals: seq<Event>, ghost lists: set<NoteList>)
    requires questions.Valid() && DenoteAll(lists, events, vals)
    modifies questions, questions.objects
    ensures questions.Valid() && fresh(questions.objects - old(questions.objects))
    ensures questions.contents == FoldQuestions(old(questions.contents), vals)
    ensures KeptObjects(RaisesAgain, old(questions.at), questions.at, vals)
  {
    ghost var start := questions.contents;
    for i := 0 to |events|
      invariant questions.Valid() && fresh(questions.objects - old(questions.objects))
      invariant questions.contents == FoldQuestions(start, vals[..i])
      invariant KeptObjects(RaisesAgain, old(questions.at), questions.at, vals[..i])
    {
      FoldSnoc(StepQuestions, start, vals, i);
      assert vals[..i + 1][..i] == vals[..i];
      assert old(Denotes(events[i], vals[i]));
      ApplyQuestionEvent(events[i].event, questions);
    }
    assert vals[..|events|] == vals;
  }
}
