/**
 The one list that the reducers change in place. TASK_MUTATED makes a task hold the list of the
 event payload itself, and a later TASK_PROGRESS_NOTED appends to that list, so reducing changes
 the events. These functions say which list a task holds and what the events are afterwards, and
 the lemmas when reducing the same events again gives the same tasks.
 */
module SharedNotes {
  import opened Wrappers
  import opened OrderedMaps
  import opened Folds

  // ----- The list that a TASK_MUTATED payload assigns

  /** Where a payload assigns progress notes, last of all. */
  function LastAssigned(us: seq<FieldUpdate>): (r: Option<nat>)
    ensures r.Some? ==> r.value < |us| && us[r.value].SetProgressNotes?
    ensures r.None? ==> forall i | 0 <= i < |us| :: !us[i].SetProgressNotes?
  {
    if us == [] then None
    else
      var n := |us| - 1;
      if us[n].SetProgressNotes? then Some(n) else LastAssigned(us[..n])
  }

  /** The payload with another list in that place. */
  function WithList(us: seq<FieldUpdate>, notes: seq<Note>): (r: seq<FieldUpdate>)
    ensures |r| == |us|
  {
    match LastAssigned(us)
    case None => us
    case Some(p) => us[p := SetProgressNotes(notes)]
  }

  lemma {:induction false} WithListPlace(us: seq<FieldUpdate>, notes: seq<Note>)
    ensures LastAssigned(WithList(us, notes)) == LastAssigned(us)
  {
    if us != [] {
      var n := |us| - 1;
      var vs := WithList(us, notes);
      if us[n].SetProgressNotes? {
        assert vs[n].SetProgressNotes?;
      } else {
        WithListPlace(us[..n], notes);
        assert vs[..n] == WithList(us[..n], notes);
      }
    }
  }

  function ListIn(e: Event): seq<Note>
    requires e.body.TaskMutated? && LastAssigned(e.body.updates).Some?
  {
    e.body.updates[LastAssigned(e.body.updates).value].n
  }

  /** The event with another list in its payload. */
  function Relisted(e: Event, notes: seq<Note>): Event {
    if e.body.TaskMutated? then e.(body := TaskMutated(e.body.taskId, WithList(e.body.updates, notes))) else e
  }

  // ----- Which list a task holds

  predicate Recreates(e: Event, k: string) {
    k != "" && e.body.TaskCreated? && e.body.taskId == k
  }

  predicate ProposesAgain(e: Event, k: string) {
    k != "" && e.body.DecisionProposed? && e.body.decisionId == k
  }

  predicate RaisesAgain(e: Event, k: string) {
    k != "" && e.body.QuestionRaised? && e.body.questionId == k
  }

  /** Some event makes an item with this id. */
  predicate MadeIn(makes: (Event, string) -> bool, es: seq<Event>, k: string) {
    es != [] && (MadeIn(makes, es[..|es| - 1], k) || makes(es[|es| - 1], k))
  }

  /** The event assigns progress notes to the task, if the task is known. */
  predicate Reassigns(e: Event, k: string) {
    k != "" && e.body.TaskMutated? && e.body.taskId == k && LastAssigned(e.body.updates).Some?
  }

  predicate NotesProgress(e: Event, k: string) {
    k != "" && e.body.TaskProgressNoted? && e.body.taskId == k
  }

  predicate TaskKnown(init: OMap<Task>, es: seq<Event>, k: string) {
    k in FoldTasks(init, es).at
  }

  /** The event whose payload list the task holds after these events, if it holds one. */
  function Owner(init: OMap<Task>, es: seq<Event>, k: string): Option<nat> {
    if es == [] then None
    else
      var n := |es| - 1;
      if Recreates(es[n], k) then None
      else if Reassigns(es[n], k) && TaskKnown(init, es[..n], k) then Some(n)
      else Owner(init, es[..n], k)
  }

  /** The notes appended to the task's list since the task has held it. */
  function Since(init: OMap<Task>, es: seq<Event>, k: string): seq<Note> {
    if es == [] then []
    else
      var n := |es| - 1;
      if Recreates(es[n], k) || (Reassigns(es[n], k) && TaskKnown(init, es[..n], k)) then []
      else if NotesProgress(es[n], k) && TaskKnown(init, es[..n], k) then Since(init, es[..n], k) + [NewNote(es[n])]
      else Since(init, es[..n], k)
  }

  /** The event to whose payload list the last of these events appends, if it does. */
  function Written(init: OMap<Task>, es: seq<Event>): Option<nat> {
    if es == [] then None
    else
      var n := |es| - 1;
      if es[n].body.TaskProgressNoted? && NotesProgress(es[n], es[n].body.taskId) && TaskKnown(init, es[..n], es[n].body.taskId)
      then Owner(init, es[..n], es[n].body.taskId) else None
  }

  /** The events as they are after they have been reduced. */
  function After(init: OMap<Task>, es: seq<Event>): (r: seq<Event>)
    ensures |r| == |es|
  {
    if es == [] then []
    else
      var n := |es| - 1;
      var r := After(init, es[..n]) + [es[n]];
      match Written(init, es)
      case None => r
      case Some(o) => if o < n && Reassigns(r[o], es[n].body.taskId)
                      then r[o := Relisted(r[o], ListIn(r[o]) + [NewNote(es[n])])] else r
  }

  lemma {:induction false} OwnerReassigns(init: OMap<Task>, es: seq<Event>, k: string)
    requires Owner(init, es, k).Some?
    ensures Owner(init, es, k).value < |es| && Reassigns(es[Owner(init, es, k).value], k)
    ensures TaskKnown(init, es, k)
  {
    var n := |es| - 1;
    assert es[..n + 1] == es;
    FoldSnoc(StepTasks, init, es, n);
    if !(Reassigns(es[n], k) && TaskKnown(init, es[..n], k)) {
      OwnerReassigns(init, es[..n], k);
    }
  }

  // ----- Events that differ in their lists only

  /** The same event, but for the list in its payload. */
  predicate Alike(e: Event, f: Event) {
    Relisted(e, []) == Relisted(f, [])
  }

  ghost predicate AllAlike(es: seq<Event>, fs: seq<Event>) {
    |es| == |fs| && forall i | 0 <= i < |es| :: Alike(es[i], fs[i])
  }

  lemma RelistedAlike(e: Event, notes: seq<Note>)
    ensures Alike(e, Relisted(e, notes))
    ensures forall k :: Reassigns(e, k) <==> Reassigns(Relisted(e, notes), k)
    ensures e.body.TaskMutated? && LastAssigned(e.body.updates).Some? ==>
              LastAssigned(Relisted(e, notes).body.updates).Some? && ListIn(Relisted(e, notes)) == notes
  {
    if e.body.TaskMutated? {
      WithListPlace(e.body.updates, notes);
      WithListTwice(e.body.updates, notes, []);
    }
  }

  lemma WithListTwice(us: seq<FieldUpdate>, a: seq<Note>, b: seq<Note>)
    ensures WithList(WithList(us, a), b) == WithList(us, b)
  {
    WithListPlace(us, a);
  }

  lemma AlikeSameKind(e: Event, f: Event)
    requires Alike(e, f)
    ensures !e.body.TaskMutated? || !f.body.TaskMutated? ==> e == f
    ensures e.body.TaskMutated? ==>
              f.body.TaskMutated? && f.body.taskId == e.body.taskId &&
              LastAssigned(f.body.updates) == LastAssigned(e.body.updates)
  {
    RelistedAlike(e, []);
    RelistedAlike(f, []);
    if e.body.TaskMutated? && f.body.TaskMutated? {
      WithListPlace(e.body.updates, []);
      WithListPlace(f.body.updates, []);
    }
  }

  function Unnoted(t: Task): Task { t.(progressNotes := []) }

  lemma ApplyUnnoted(t: Task, u: FieldUpdate)
    ensures Unnoted(ApplyUpdate(Unnoted(t), u)) == Unnoted(ApplyUpdate(t, u))
  {
  }

  /** What the items of a payload do to a task, its notes apart. */
  lemma {:induction false} UpdatesApart(t: Task, us: seq<FieldUpdate>)
    ensures var r := Fold(ApplyUpdate, t, us);
            && Unnoted(r) == Unnoted(Fold(ApplyUpdate, Unnoted(t), WithList(us, [])))
            && r.progressNotes == match LastAssigned(us) case Some(p) => us[p].n case None => t.progressNotes
  {
    if us != [] {
      var n := |us| - 1;
      UpdatesApart(t, us[..n]);
      assert us[..n + 1] == us;
      FoldSnoc(ApplyUpdate, t, us, n);
      UpdatesStep(t, us);
    }
  }

  lemma WithListPrefix(us: seq<FieldUpdate>)
    requires us != []
    ensures var n, vs := |us| - 1, WithList(us, []);
            if us[n].SetProgressNotes? then vs[..n] == us[..n] && vs[n] == SetProgressNotes([])
            else vs[..n] == WithList(us[..n], []) && vs[n] == us[n]
  {
  }

  lemma UpdatesStep(t: Task, us: seq<FieldUpdate>)
    requires us != []
    requires var n := |us| - 1;
             Unnoted(Fold(ApplyUpdate, t, us[..n])) == Unnoted(Fold(ApplyUpdate, Unnoted(t), WithList(us[..n], [])))
    ensures var n := |us| - 1;
            Unnoted(ApplyUpdate(Fold(ApplyUpdate, t, us[..n]), us[n])) == Unnoted(Fold(ApplyUpdate, Unnoted(t), WithList(us, [])))
  {
    var n := |us| - 1;
    var vs := WithList(us, []);
    assert vs[..n + 1] == vs;
    FoldSnoc(ApplyUpdate, Unnoted(t), vs, n);
    WithListPrefix(us);
    if us[n].SetProgressNotes? { PlainUpdatesApart(t, us[..n]); }
    LastUpdateApart(Fold(ApplyUpdate, t, us[..n]), Fold(ApplyUpdate, Unnoted(t), vs[..n]), us[n], vs[n]);
  }

  lemma LastUpdateApart(t: Task, s: Task, u: FieldUpdate, v: FieldUpdate)
    requires Unnoted(t) == Unnoted(s) && (u == v || (u.SetProgressNotes? && v.SetProgressNotes?))
    ensures Unnoted(ApplyUpdate(t, u)) == Unnoted(ApplyUpdate(s, v))
  {
    ApplyUnnoted(t, u);
    ApplyUnnoted(s, v);
  }

  /** The notes a task starts with do not reach its other fields. */
  lemma {:induction false} PlainUpdatesApart(t: Task, us: seq<FieldUpdate>)
    ensures Unnoted(Fold(ApplyUpdate, t, us)) == Unnoted(Fold(ApplyUpdate, Unnoted(t), us))
  {
    if us != [] {
      var n := |us| - 1;
      PlainUpdatesApart(t, us[..n]);
      assert us[..n + 1] == us;
      FoldSnoc(ApplyUpdate, t, us, n);
      FoldSnoc(ApplyUpdate, Unnoted(t), us, n);
      ApplyUnnoted(Fold(ApplyUpdate, t, us[..n]), us[n]);
      ApplyUnnoted(Fold(ApplyUpdate, Unnoted(t), us[..n]), us[n]);
    }
  }

  /** Alike events touch tasks that differ in their notes only in the same way, notes apart. */
  lemma TouchApart(t: Task, u: Task, e: Event, f: Event)
    requires Alike(e, f) && Unnoted(t) == Unnoted(u)
    ensures Unnoted(TouchTask(t, e)) == Unnoted(TouchTask(u, f))
    ensures TouchTask(t, e).progressNotes ==
            if e.body.TaskMutated? && LastAssigned(e.body.updates).Some? then ListIn(e)
            else if e.body.TaskProgressNoted? then t.progressNotes + [NewNote(e)] else t.progressNotes
  {
    AlikeSameKind(e, f);
    if e.body.TaskMutated? {
      UpdatesApart(t, e.body.updates);
      UpdatesApart(u, f.body.updates);
    }
  }

  // ----- The notes of a task: what its list held when the task got it, and those since

  function Base(init: OMap<Task>, es: seq<Event>, k: string): seq<Note> {
    if es == [] then if k in init.at then init.at[k].progressNotes else []
    else
      var n := |es| - 1;
      if Recreates(es[n], k) then []
      else if Reassigns(es[n], k) && TaskKnown(init, es[..n], k) then ListIn(es[n])
      else Base(init, es[..n], k)
  }

  lemma {:induction false} NotesAre(init: OMap<Task>, es: seq<Event>, k: string)
    requires TaskKnown(init, es, k)
    ensures FoldTasks(init, es).at[k].progressNotes == Base(init, es, k) + Since(init, es, k)
  {
    if es != [] {
      var n := |es| - 1;
      if TaskKnown(init, es[..n], k) { NotesAre(init, es[..n], k); }
      NotesStep(init, es, k);
    }
  }

  lemma NotesStep(init: OMap<Task>, es: seq<Event>, k: string)
    requires es != [] && TaskKnown(init, es, k)
    requires var before := es[..|es| - 1];
             TaskKnown(init, before, k) ==> FoldTasks(init, before).at[k].progressNotes == Base(init, before, k) + Since(init, before, k)
    ensures FoldTasks(init, es).at[k].progressNotes == Base(init, es, k) + Since(init, es, k)
  {
    var n := |es| - 1;
    assert es[..n + 1] == es;
    FoldSnoc(StepTasks, init, es, n);
    var before := FoldTasks(init, es[..n]);
    if k in before.at { TouchApart(before.at[k], before.at[k], es[n], es[n]); }
  }

  lemma {:induction false} BaseOfOwner(init: OMap<Task>, es: seq<Event>, k: string)
    requires Owner(init, es, k).Some?
    ensures Owner(init, es, k).value < |es| && Reassigns(es[Owner(init, es, k).value], k)
    ensures Base(init, es, k) == ListIn(es[Owner(init, es, k).value])
  {
    OwnerReassigns(init, es, k);
    var n := |es| - 1;
    if !(Reassigns(es[n], k) && TaskKnown(init, es[..n], k)) {
      BaseOfOwner(init, es[..n], k);
    }
  }

  /** Alike events give the same tasks, notes apart, and make tasks hold lists in the same way. */
  ghost predicate SameButNotes(a: OMap<Task>, b: OMap<Task>) {
    a.keys == b.keys && a.at.Keys == b.at.Keys && forall k | k in a.at :: Unnoted(a.at[k]) == Unnoted(b.at[k])
  }

  lemma StepApart(a: OMap<Task>, b: OMap<Task>, e: Event, f: Event)
    requires SameButNotes(a, b) && Alike(e, f)
    ensures SameButNotes(StepTasks(a, e), StepTasks(b, f))
  {
    AlikeSameKind(e, f);
    var id := TaskTouched(e);
    if id in a.at { TouchApart(a.at[id], b.at[id], e, f); }
  }

  lemma {:induction false} FoldApart(init: OMap<Task>, es: seq<Event>, fs: seq<Event>)
    requires AllAlike(es, fs)
    ensures SameButNotes(FoldTasks(init, es), FoldTasks(init, fs))
  {
    if es != [] {
      var n := |es| - 1;
      FoldApart(init, es[..n], fs[..n]);
      assert es[..n + 1] == es && fs[..n + 1] == fs;
      FoldSnoc(StepTasks, init, es, n);
      FoldSnoc(StepTasks, init, fs, n);
      StepApart(FoldTasks(init, es[..n]), FoldTasks(init, fs[..n]), es[n], fs[n]);
    }
  }

  lemma SameEffect(e: Event, f: Event, k: string)
    requires Alike(e, f)
    ensures (Recreates(e, k) <==> Recreates(f, k)) && (Reassigns(e, k) <==> Reassigns(f, k))
    ensures (NotesProgress(e, k) <==> NotesProgress(f, k)) && (NotesProgress(e, k) ==> e == f)
  {
    AlikeSameKind(e, f);
  }

  lemma {:induction false} HeldApart(init: OMap<Task>, es: seq<Event>, fs: seq<Event>, k: string)
    requires AllAlike(es, fs)
    ensures Owner(init, es, k) == Owner(init, fs, k) && Since(init, es, k) == Since(init, fs, k)
    ensures Owner(init, es, k).None? ==> Base(init, es, k) == Base(init, fs, k)
  {
    if es != [] {
      var n := |es| - 1;
      SameEffect(es[n], fs[n], k);
      FoldApart(init, es[..n], fs[..n]);
      HeldApart(init, es[..n], fs[..n], k);
    }
  }

  // ----- The events after they have been reduced

  lemma AlikeUpdated(es: seq<Event>, r: seq<Event>, o: nat, notes: seq<Note>)
    requires AllAlike(es, r) && o < |r|
    ensures AllAlike(es, r[o := Relisted(r[o], notes)])
  {
    RelistedAlike(r[o], notes);
  }

  lemma AlikeMore(es: seq<Event>, r: seq<Event>)
    requires es != [] && AllAlike(es[..|es| - 1], r)
    ensures AllAlike(es, r + [es[|es| - 1]])
  {
    forall i | 0 <= i < |es| ensures Alike(es[i], (r + [es[|es| - 1]])[i]) {
      if i < |es| - 1 { assert Alike(es[..|es| - 1][i], r[i]); }
    }
  }

  lemma {:induction false} AfterAlike(init: OMap<Task>, es: seq<Event>)
    ensures AllAlike(es, After(init, es))
  {
    if es != [] {
      var n := |es| - 1;
      AfterAlike(init, es[..n]);
      AlikeMore(es, After(init, es[..n]));
      var r := After(init, es[..n]) + [es[n]];
      var w := Written(init, es);
      if w.Some? && w.value < n && Reassigns(r[w.value], es[n].body.taskId) {
        AlikeUpdated(es, r, w.value, ListIn(r[w.value]) + [NewNote(es[n])]);
      }
    }
  }

  /** The last event appends to the list of the event that the task holds, in a payload as it is by then. */
  lemma WrittenReassigns(init: OMap<Task>, es: seq<Event>)
    requires Written(init, es).Some?
    ensures var n, o := |es| - 1, Written(init, es).value;
            && o < n && Reassigns(es[o], es[n].body.taskId) && Reassigns(After(init, es[..n])[o], es[n].body.taskId)
            && After(init, es) == var r := After(init, es[..n]) + [es[n]]; r[o := Relisted(r[o], ListIn(r[o]) + [NewNote(es[n])])]
  {
    var n, o := |es| - 1, Written(init, es).value;
    OwnerReassigns(init, es[..n], es[n].body.taskId);
    AfterAlike(init, es[..n]);
    assert Alike(es[..n][o], After(init, es[..n])[o]);
    AlikeSameKind(es[o], After(init, es[..n])[o]);
  }

  /** The list that a task holds has grown by the notes since. */
  lemma {:induction false} HeldListGrown(init: OMap<Task>, es: seq<Event>, k: string)
    requires Owner(init, es, k).Some?
    ensures var o := Owner(init, es, k).value;
            && o < |es| && Reassigns(es[o], k) && Reassigns(After(init, es)[o], k)
            && ListIn(After(init, es)[o]) == ListIn(es[o]) + Since(init, es, k)
  {
    var n, o := |es| - 1, Owner(init, es, k).value;
    OwnerReassigns(init, es, k);
    if Reassigns(es[n], k) && TaskKnown(init, es[..n], k) {
      assert After(init, es)[n] == es[n];
    } else {
      HeldListGrown(init, es[..n], k);
      if Written(init, es).Some? {
        WrittenReassigns(init, es);
        var r := After(init, es[..n])[o];
        RelistedAlike(r, ListIn(r) + [NewNote(es[n])]);
      }
    }
  }

  // ----- When reducing disturbs nothing

  /** The j-th event appends to the payload list of an earlier one. */
  predicate Writes(init: OMap<Task>, es: seq<Event>, j: nat)
    requires j < |es|
  {
    Written(init, es[..j + 1]).Some?
  }

  function ListSize(e: Event): nat {
    if e.body.TaskMutated? && LastAssigned(e.body.updates).Some? then |ListIn(e)| else 0
  }

  /** The last event only lengthens lists. */
  lemma LastGrows(init: OMap<Task>, es: seq<Event>, i: nat)
    requires i < |es| - 1
    ensures ListSize(After(init, es)[i]) >= ListSize(After(init, es[..|es| - 1])[i])
    ensures Written(init, es) == Some(i) ==> ListSize(After(init, es)[i]) > ListSize(After(init, es[..|es| - 1])[i])
  {
    if Written(init, es).Some? {
      WrittenReassigns(init, es);
      var n := |es| - 1;
      var r := After(init, es[..n])[Written(init, es).value];
      RelistedAlike(r, ListIn(r) + [NewNote(es[n])]);
    }
  }

  /** Lists of events only grow. */
  lemma {:induction false} AfterGrows(init: OMap<Task>, es: seq<Event>, i: nat)
    requires i < |es|
    ensures ListSize(After(init, es)[i]) >= ListSize(es[i])
  {
    var n := |es| - 1;
    if i < n {
      AfterGrows(init, es[..n], i);
      LastGrows(init, es, i);
    } else if Written(init, es).Some? {
      WrittenReassigns(init, es);
    }
  }

  lemma WrittenLastGrows(init: OMap<Task>, es: seq<Event>)
    requires Written(init, es).Some?
    ensures var i := Written(init, es).value; i < |es| - 1 && ListSize(After(init, es)[i]) > ListSize(es[i])
  {
    WrittenReassigns(init, es);
    var i := Written(init, es).value;
    AfterGrows(init, es[..|es| - 1], i);
    LastGrows(init, es, i);
  }

  lemma ShorterPrefix<T>(xs: seq<T>, n: nat)
    requires n < |xs|
    ensures xs[..|xs| - 1][..n] == xs[..n] && forall i | 0 <= i < |xs| - 1 :: xs[..|xs| - 1][i] == xs[i]
  {
  }

  /** A list that is written to is longer afterwards. */
  lemma {:induction false} WrittenGrows(init: OMap<Task>, es: seq<Event>, i: nat, j: nat)
    requires j < |es| && Written(init, es[..j + 1]) == Some(i)
    ensures i < j && ListSize(After(init, es)[i]) > ListSize(es[i])
  {
    var n := |es| - 1;
    if j < n {
      ShorterPrefix(es, j + 1);
      WrittenGrows(init, es[..n], i, j);
      LastGrows(init, es, i);
    } else {
      assert es[..j + 1] == es;
      WrittenLastGrows(init, es);
    }
  }

  lemma LastUnwritten(init: OMap<Task>, es: seq<Event>)
    requires es != [] && !Writes(init, es, |es| - 1) && After(init, es[..|es| - 1]) == es[..|es| - 1]
    ensures After(init, es) == es
  {
    assert es[..|es|] == es;
  }

  lemma WritesInPrefix(init: OMap<Task>, es: seq<Event>, j: nat)
    requires j < |es| - 1
    ensures Writes(init, es[..|es| - 1], j) <==> Writes(init, es, j)
  {
    ShorterPrefix(es, j + 1);
  }

  lemma {:induction false} NothingWritten(init: OMap<Task>, es: seq<Event>)
    requires forall j | 0 <= j < |es| :: !Writes(init, es, j)
    ensures After(init, es) == es
  {
    if es != [] {
      var n := |es| - 1;
      forall j | 0 <= j < n ensures !Writes(init, es[..n], j) { WritesInPrefix(init, es, j); }
      NothingWritten(init, es[..n]);
      assert !Writes(init, es, n);
      LastUnwritten(init, es);
    }
  }

  /** Reducing leaves the events as they are exactly when no event writes to the list of another. */
  lemma EventsUnchangedExact(init: OMap<Task>, es: seq<Event>)
    ensures After(init, es) == es <==> forall j | 0 <= j < |es| :: !Writes(init, es, j)
  {
    if forall j | 0 <= j < |es| :: !Writes(init, es, j) {
      NothingWritten(init, es);
    } else {
      var j :| 0 <= j < |es| && Writes(init, es, j);
      WrittenGrows(init, es, Written(init, es[..j + 1]).value, j);
    }
  }

  /** The other reducers do not look at the lists. */
  lemma {:induction false} OthersApart(s: State, es: seq<Event>, fs: seq<Event>)
    requires AllAlike(es, fs)
    ensures Fold(StepProject, s.project, es) == Fold(StepProject, s.project, fs)
    ensures FoldDecisions(s.decisions, es) == FoldDecisions(s.decisions, fs)
    ensures FoldQuestions(s.questions, es) == FoldQuestions(s.questions, fs)
    decreases |es|
  {
    if es != [] {
      AlikeSameKind(es[0], fs[0]);
      var t := State(StepProject(s.project, es[0]), s.tasks, StepDecisions(s.decisions, es[0]), StepQuestions(s.questions, es[0]));
      forall i | 0 <= i < |es| - 1 ensures Alike(es[1..][i], fs[1..][i]) { assert Alike(es[i + 1], fs[i + 1]); }
      OthersApart(t, es[1..], fs[1..]);
    }
  }

  /** No task ends up with the list of an event to which something has been appended. */
  ghost predicate Undisturbed(init: OMap<Task>, es: seq<Event>) {
    forall k :: Owner(init, es, k).Some? ==> Since(init, es, k) == []
  }

  lemma NotesAgain(init: OMap<Task>, es: seq<Event>, k: string)
    requires TaskKnown(init, es, k)
    ensures TaskKnown(init, After(init, es), k)
    ensures FoldTasks(init, After(init, es)).at[k].progressNotes ==
            FoldTasks(init, es).at[k].progressNotes + if Owner(init, es, k).Some? then Since(init, es, k) else []
  {
    var fs := After(init, es);
    AfterAlike(init, es);
    FoldApart(init, es, fs);
    HeldApart(init, es, fs, k);
    NotesAre(init, es, k);
    NotesAre(init, fs, k);
    if Owner(init, es, k).Some? {
      HeldListGrown(init, es, k);
      BaseOfOwner(init, es, k);
      BaseOfOwner(init, fs, k);
    }
  }

  /**
   Reducing the same events a second time gives the same tasks exactly when no task ends up with
   the payload list of an event to which a later event has appended a note.
   */
  lemma ReduceTwiceExact(init: OMap<Task>, es: seq<Event>)
    ensures FoldTasks(init, After(init, es)) == FoldTasks(init, es) <==> Undisturbed(init, es)
  {
    var fs := After(init, es);
    var a, b := FoldTasks(init, es), FoldTasks(init, fs);
    AfterAlike(init, es);
    FoldApart(init, es, fs);
    forall k | k in a.at
      ensures b.at[k] == a.at[k] <==> (Owner(init, es, k).Some? ==> Since(init, es, k) == [])
    {
      NotesAgain(init, es, k);
      assert Unnoted(a.at[k]) == Unnoted(b.at[k]);
      assert a.at[k] == Unnoted(a.at[k]).(progressNotes := a.at[k].progressNotes);
      assert b.at[k] == Unnoted(b.at[k]).(progressNotes := b.at[k].progressNotes);
    }
    forall k | Owner(init, es, k).Some? ensures k in a.at { OwnerReassigns(init, es, k); }
    if Undisturbed(init, es) {
      assert a.at == b.at;
    }
  }

  /**
   The replay law on shared events: once A + B has been reduced, reducing A and then B from there
   on the same events gives the same tasks exactly under that condition.
   */
  lemma ReplayLawOnSharedEvents(a: seq<Event>, b: seq<Event>)
    ensures var es := After(Empty(), a + b);
            FoldTasks(FoldTasks(Empty(), es[..|a|]), es[|a|..]) == FoldTasks(Empty(), a + b) <==> Undisturbed(Empty(), a + b)
  {
    SplitFold(After(Empty(), a + b), |a|);
    ReduceTwiceExact(Empty(), a + b);
  }

  lemma SplitFold(es: seq<Event>, i: nat)
    requires i <= |es|
    ensures FoldTasks(FoldTasks(Empty(), es[..i]), es[i..]) == FoldTasks(Empty(), es)
  {
    FoldSplit(StepTasks, Empty(), es[..i], es[i..]);
    assert es[..i] + es[i..] == es;
  }

  /** Created, given an empty list of notes, noted once: a second reduce shows the note twice. */
  lemma SecondReduceDiffers(es: seq<Event>)
    requires |es| == 3 && es[0].body.TaskCreated? && es[0].body.taskId == "t"
    requires es[1].body == TaskMutated("t", [SetProgressNotes([])])
    requires es[2].body.TaskProgressNoted? && es[2].body.taskId == "t"
    ensures After(Empty(), es) != es
    ensures var first, second := FoldTasks(Empty(), es), FoldTasks(Empty(), After(Empty(), es));
            && "t" in first.at && first.at["t"].progressNotes == [NewNote(es[2])]
            && "t" in second.at && second.at["t"].progressNotes == [NewNote(es[2]), NewNote(es[2])]
  {
    FoldSnoc(StepTasks, Empty(), es, 0);
    assert TaskKnown(Empty(), es[..1], "t");
    HeldAtNote(es);
    OwnerReassigns(Empty(), es, "t");
    NotesAre(Empty(), es, "t");
    BaseOfOwner(Empty(), es, "t");
    NotesAgain(Empty(), es, "t");
    assert es[..3] == es;
    assert Writes(Empty(), es, 2);
    EventsUnchangedExact(Empty(), es);
  }

  lemma HeldAtNote(es: seq<Event>)
    requires |es| == 3 && TaskKnown(Empty(), es[..1], "t")
    requires es[1].body == TaskMutated("t", [SetProgressNotes([])])
    requires es[2].body.TaskProgressNoted? && es[2].body.taskId == "t"
    ensures Owner(Empty(), es, "t") == Owner(Empty(), es[..2], "t") == Some(1)
    ensures Since(Empty(), es, "t") == [NewNote(es[2])] && Written(Empty(), es) == Some(1) && ListIn(es[1]) == []
  {
    assert es[..2][..1] == es[..1];
    assert es[1].body.updates[0].SetProgressNotes? && LastAssigned(es[1].body.updates) == Some(0);
    assert es[..2][1] == es[1];
    assert Owner(Empty(), es[..2], "t") == Some(1);
    assert Since(Empty(), es[..2], "t") == [];
    OwnerReassigns(Empty(), es[..2], "t");
  }
}
