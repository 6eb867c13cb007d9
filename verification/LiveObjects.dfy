/**
 The objects that the reducers share and change: state objects in dicts, and the lists of progress
 notes that tasks, event payloads and snapshot rows refer to. `progress_notes` is the one list that
 the modelled code changes in place, so it is the one list with an identity.
 */
module LiveObjects {
  import opened Wrappers
  import opened OrderedMaps
  import opened Folds
  import opened SharedNotes

  class NoteList {
    var notes: seq<Note>

    constructor (ns: seq<Note>)
      ensures notes == ns
    {
      notes := ns;
    }
  }

  // ----- Tasks

  /** The fields of a task object; its notes are in the list it refers to. */
  datatype LiveTask = LiveTask(fields: Task, list: NoteList)

  function Present(t: LiveTask): Task
    reads t.list
  {
    t.fields.(progressNotes := t.list.notes)
  }

  ghost function TaskLists(m: OMap<LiveTask>): set<NoteList> {
    set k | k in m.at :: m.at[k].list
  }

  /** No list belongs to two tasks. */
  ghost predicate OwnLists(m: OMap<LiveTask>) {
    forall k, l | k in m.at && l in m.at && m.at[k].list == m.at[l].list :: k == l
  }

  /** What the tasks are at present; their lists are among `lists`. */
  ghost predicate TasksAre(lists: set<NoteList>, m: OMap<LiveTask>, v: OMap<Task>)
    reads lists
  {
    && m.keys == v.keys && m.at.Keys == v.at.Keys
    && forall k | k in m.at :: m.at[k].list in lists && Present(m.at[k]) == v.at[k]
  }

  lemma TasksAreSet(lists: set<NoteList>, m: OMap<LiveTask>, v: OMap<Task>, k: string, t: LiveTask)
    requires TasksAre(lists, m, v) && t.list in lists
    ensures TasksAre(lists, Set(m, k, t), Set(v, k, Present(t)))
  {
  }

  lemma OwnListsSet(m: OMap<LiveTask>, k: string, t: LiveTask)
    requires OwnLists(m) && forall l | l in m.at && l != k :: m.at[l].list != t.list
    ensures OwnLists(Set(m, k, t))
  {
  }

  // ----- Events

  /** An item of a TASK_MUTATED payload; a list of progress notes is an object. */
  datatype LiveUpdate = Plain(update: FieldUpdate) | Listed(list: NoteList)

  /** An event; the items of a TASK_MUTATED payload are in `items`. */
  datatype LiveEvent = LiveEvent(event: Event, items: seq<LiveUpdate>)

  ghost function ItemLists(i: LiveUpdate): set<NoteList> {
    if i.Listed? then {i.list} else {}
  }

  ghost predicate ItemIs(i: LiveUpdate, u: FieldUpdate)
    reads ItemLists(i)
  {
    match i
    case Plain(w) => u == w && !w.SetProgressNotes?
    case Listed(l) => u == SetProgressNotes(l.notes)
  }

  ghost function ListsIn(e: LiveEvent): set<NoteList> {
    set i | 0 <= i < |e.items| && e.items[i].Listed? :: e.items[i].list
  }

  /** What the event is at present. */
  ghost predicate Denotes(e: LiveEvent, v: Event)
    reads ListsIn(e)
  {
    if e.event.body.TaskMutated? then
      && v.body.TaskMutated? && v == e.event.(body := TaskMutated(e.event.body.taskId, v.body.updates))
      && ItemsAre(e, v.body.updates)
    else v == e.event && e.items == []
  }

  ghost predicate ItemsAre(e: LiveEvent, us: seq<FieldUpdate>)
    reads ListsIn(e)
  {
    |us| == |e.items| && forall i | 0 <= i < |us| :: ItemIs(e.items[i], us[i])
  }

  ghost function EventLists(es: seq<LiveEvent>): set<NoteList> {
    set i, l | 0 <= i < |es| && l in ListsIn(es[i]) :: l
  }

  /** What the events are at present; their lists are among `lists`. */
  ghost predicate DenoteAll(lists: set<NoteList>, es: seq<LiveEvent>, vs: seq<Event>)
    reads lists
  {
    |es| == |vs| && forall i | 0 <= i < |es| :: ListsIn(es[i]) <= lists && Denotes(es[i], vs[i])
  }

  /** Every list is in one place of one payload, as in events decoded from JSON. */
  ghost predicate Separate(es: seq<LiveEvent>) {
    && (forall i, j, l | 0 <= i < |es| && 0 <= j < |es| && l in ListsIn(es[i]) && l in ListsIn(es[j]) :: i == j)
    && (forall i | 0 <= i < |es| :: OncePerPayload(es[i]))
  }

  ghost predicate OncePerPayload(e: LiveEvent) {
    forall a, b | 0 <= a < |e.items| && 0 <= b < |e.items| && e.items[a].Listed? && e.items[b].Listed?
      && e.items[a].list == e.items[b].list :: a == b
  }

  /** Where a payload assigns a list, last of all. */
  function LastListed(items: seq<LiveUpdate>): (r: Option<nat>)
    ensures r.Some? ==> r.value < |items| && items[r.value].Listed?
  {
    if items == [] then None
    else
      var n := |items| - 1;
      if items[n].Listed? then Some(n) else LastListed(items[..n])
  }

  /** That list. */
  function LastList(e: LiveEvent): Option<NoteList> {
    match LastListed(e.items)
    case None => None
    case Some(p) => Some(e.items[p].list)
  }

  lemma LastListIn(e: LiveEvent)
    ensures LastList(e).Some? ==> LastList(e).value in ListsIn(e)
  {
  }

  lemma {:induction false} LastListedIsAssigned(items: seq<LiveUpdate>, us: seq<FieldUpdate>)
    requires |items| == |us| && forall i | 0 <= i < |us| :: ItemIs(items[i], us[i])
    ensures LastListed(items) == LastAssigned(us)
  {
    if us != [] {
      var n := |us| - 1;
      assert ItemIs(items[n], us[n]);
      if !us[n].SetProgressNotes? {
        forall i | 0 <= i < n ensures ItemIs(items[..n][i], us[..n][i]) { assert ItemIs(items[i], us[i]); }
        LastListedIsAssigned(items[..n], us[..n]);
      }
    }
  }

  lemma ReassignedList(e: LiveEvent, v: Event, k: string)
    requires Denotes(e, v)
    ensures Reassigns(v, k) ==> LastList(e).Some? && LastList(e).value in ListsIn(e)
    ensures v.body.TaskMutated? ==> (LastListed(e.items) == LastAssigned(v.body.updates))
  {
    if v.body.TaskMutated? { LastListedIsAssigned(e.items, v.body.updates); }
  }

  lemma ListOfReassigning(e: LiveEvent, v: Event, k: string)
    requires Denotes(e, v) && Reassigns(v, k)
    ensures LastList(e).Some? && LastList(e).value.notes == ListIn(v)
  {
    LastListedIsAssigned(e.items, v.body.updates);
    assert ItemIs(e.items[LastListed(e.items).value], v.body.updates[LastListed(e.items).value]);
  }

  lemma FewerLists(lists: set<NoteList>, es: seq<LiveEvent>, vs: seq<Event>)
    requires DenoteAll(lists, es, vs)
    ensures DenoteAll(EventLists(es), es, vs)
  {
    forall i | 0 <= i < |es| ensures ListsIn(es[i]) <= EventLists(es) {
      assert forall l | l in ListsIn(es[i]) :: l in EventLists(es);
    }
  }

  // ----- Assigning the items of a payload

  /** `setattr` for one item. */
  function ApplyItem(t: LiveTask, i: LiveUpdate): LiveTask {
    match i
    case Plain(u) => t.(fields := ApplyUpdate(t.fields, u))
    case Listed(l) => t.(list := l)
  }

  lemma ItemPresent(t: LiveTask, i: LiveUpdate, u: FieldUpdate)
    requires ItemIs(i, u)
    ensures Present(ApplyItem(t, i)) == ApplyUpdate(Present(t), u)
  {
  }

  /** Assigning the items to the object is applying the updates to its value. */
  lemma {:induction false} ItemsPresent(t: LiveTask, items: seq<LiveUpdate>, us: seq<FieldUpdate>)
    requires |items| == |us| && forall i | 0 <= i < |us| :: ItemIs(items[i], us[i])
    ensures var r := Fold(ApplyItem, t, items);
            && Present(r) == Fold(ApplyUpdate, Present(t), us)
            && r.list == match LastListed(items) case Some(p) => items[p].list case None => t.list
  {
    if us != [] {
      var n := |us| - 1;
      forall i | 0 <= i < n ensures ItemIs(items[..n][i], us[..n][i]) { assert ItemIs(items[i], us[i]); }
      ItemsPresent(t, items[..n], us[..n]);
      assert items[..n + 1] == items && us[..n + 1] == us;
      FoldSnoc(ApplyItem, t, items, n);
      FoldSnoc(ApplyUpdate, Present(t), us, n);
      ItemPresent(Fold(ApplyItem, t, items[..n]), items[n], us[n]);
    }
  }

  /** A longer list in the place that the payload assigns last. */
  lemma DenotesLonger(e: LiveEvent, v: Event, note: Note)
    requires e.event.body.TaskMutated? && v.body.TaskMutated? && |v.body.updates| == |e.items|
    requires v == e.event.(body := TaskMutated(e.event.body.taskId, v.body.updates))
    requires LastAssigned(v.body.updates).Some?
    requires var p := LastAssigned(v.body.updates).value;
             && e.items[p].Listed? && e.items[p].list.notes == v.body.updates[p].n + [note]
             && forall i | 0 <= i < |e.items| && i != p :: ItemIs(e.items[i], v.body.updates[i])
    ensures Denotes(e, Relisted(v, ListIn(v) + [note]))
  {
  }
}
