/**
 The vault as a state machine: appends to any projects, compiles by the cognitive head's compiler
 and by the projection platform's, whose save succeeds or fails, and deletions of old snapshots, in
 any order. Both compilers load and save the same rows. Snapshot-assisted replay agrees with full
 replay after every run, exactly as far as stated here.
 */
module Vault {
  import opened Wrappers
  import opened Orders
  import opened OrderedMaps
  import opened Folds
  import opened Heads
  import opened Snapshots
  import opened Ledger
  import opened Replay
  import opened HeadReduction
  import opened Platform

  datatype Action =
    | Append(project: string, actor: string, recordedAt: Option<string>, body: Body)
    | CompileHead(project: string, manager: Manager, saveSucceeds: bool)
    | PlatformCompileHead(project: string, manager: Manager, saveSucceeds: bool)
    | DeleteSnapshots(project: string, before: int)

  function Step(db: Database, a: Action): Database {
    match a
    case Append(p, actor, at, body) => db.(events := db.events + [NextEvent(db.events, p, actor, at, body)])
    case CompileHead(p, manager, saves) => Compile(db, p, manager, saves).0
    case PlatformCompileHead(p, manager, saves) => PlatformCompile(db, p, manager, saves).0
    case DeleteSnapshots(p, before) => db.(snapshots := DeleteBefore(db.snapshots, p, before))
  }

  function Run(db: Database, actions: seq<Action>): Database {
    if actions == [] then db
    else
      var n := |actions| - 1;
      Step(Run(db, actions[..n]), actions[n])
  }

  // ----- The invariant

  /** The snapshot of a stream that has been replayed in full. */
  function SnapshotOf(project: string, stream: seq<Event>, sequence: int): Payload {
    var s := Reduce(Initial, stream);
    FromHead(HeadOf(project, s, MaxVersion(stream)), sequence, s)
  }

  /** A stored snapshot holds the reducer state of its project's stream up to its sequence. */
  ghost predicate SnapshotOk(events: seq<Event>, r: SnapshotRow) {
    var at := r.payload.content.sequence;
    var covered := Prefix(events, r.project, at);
    && 0 < at <= LatestSequence(events, r.project)
    && Bootstrapped(covered)
    && r.payload == SnapshotOf(r.project, covered, at)
  }

  /** A row that the platform saved: sequence 0 and no items, for a project that has been bootstrapped. */
  ghost predicate PlatformRowOk(events: seq<Event>, r: SnapshotRow) {
    var c := r.payload.content;
    && c.sequence == 0 && c.schemaVersion == SCHEMA_VERSION && c.projectionVersion == PROJECTION_VERSION
    && c.tasks == Empty() && c.decisions == Empty() && c.questions == Empty()
    && r.payload.ValidateHash() && Bootstrapped(Stream(events, r.project, 0))
  }

  ghost predicate RowOk(events: seq<Event>, r: SnapshotRow) {
    if r.payload.content.sequence > 0 then SnapshotOk(events, r) else PlatformRowOk(events, r)
  }

  ghost predicate Ok(db: Database) {
    LedgerOk(db.events) && forall r | r in db.snapshots :: RowOk(db.events, r)
  }

  // ----- Full and delta replay agree

  ghost predicate SameHeadFields(a: Project, b: Project) {
    a.name == b.name && a.goal == b.goal && a.currentFocus == b.currentFocus
  }

  lemma {:induction false} ProjectFoldAgrees(a: Project, b: Project, events: seq<Event>)
    requires SameHeadFields(a, b)
    ensures SameHeadFields(Fold(StepProject, a, events), Fold(StepProject, b, events))
    decreases |events|
  {
    if events != [] {
      ProjectFoldAgrees(StepProject(a, events[0]), StepProject(b, events[0]), events[1..]);
    }
  }

  /** Replaying a delta on the rebuilt snapshot gives the head of the whole stream. */
  lemma DeltaIsFull(project: string, covered: seq<Event>, sequence: int, delta: seq<Event>, version: int)
    ensures HeadOf(project, Reduce(Rebuild(SnapshotOf(project, covered, sequence).content), delta), version) ==
            HeadOf(project, Reduce(Initial, covered + delta), version)
  {
    var s := Reduce(Initial, covered);
    var rebuilt := Rebuild(SnapshotOf(project, covered, sequence).content);
    RebuildInverse(HeadOf(project, s, MaxVersion(covered)), sequence, s);
    ReduceSplit(Initial, covered, delta);
    ProjectFoldAgrees(rebuilt.project, s.project, delta);
    var a, b := Reduce(rebuilt, delta), Reduce(s, delta);
    assert a.tasks == b.tasks && a.decisions == b.decisions && a.questions == b.questions;
    assert Blockers(a) == Blockers(b);
  }

  lemma BootstrappedMore(a: seq<Event>, b: seq<Event>)
    requires Bootstrapped(a)
    ensures Bootstrapped(a + b)
  {
    assert forall e | e in a :: e in a + b;
  }

  /** What a load returns in a reachable state. */
  lemma RowLoads(events: seq<Event>, r: SnapshotRow)
    requires LedgerOk(events) && RowOk(events, r)
    ensures var c := r.payload.content;
            && r == SnapshotRow(r.project, Payload(c, Sha256(c))) && c.schemaVersion == SCHEMA_VERSION && c.projectionVersion == PROJECTION_VERSION
            && c.sequence <= LatestSequence(events, r.project)
  {
    LatestSequenceIsLast(events, r.project);
  }

  lemma LoadInOkState(db: Database, project: string, manager: Manager)
    requires Ok(db)
    ensures var load := LoadValid(db, project, manager);
            && (load.Valid? <==> manager.Manager? && db.restoresHash && LastSequence(db.snapshots, project).Some?)
            && (load.Valid? ==>
                  && LastSequence(db.snapshots, project) == Some(load.content.sequence)
                  && RowOk(db.events, SnapshotRow(project, Payload(load.content, Sha256(load.content)))))
  {
    LatestSnapshotExact(db.snapshots, project);
    match LatestSnapshot(db.snapshots, project)
    case None =>
    case Some(row) =>
      assert RowOk(db.events, row);
      RowLoads(db.events, row);
  }

  /** The outcome of replay in a reachable state, for each mode. */
  lemma ReplayOutcome(db: Database, project: string, manager: Manager)
    requires Ok(db)
    ensures var stream := Stream(db.events, project, 0);
            match Projected(db, project, manager)
            case MissingBootstrap => !Bootstrapped(stream)
            case Built(r) =>
              && Bootstrapped(stream)
              && (r.mode != FastPath ==> r.head == FullHead(db.events, project))
              && (r.mode == FastPath ==>
                    r.head == UnfilteredHead(project, Reduce(Initial, stream), MaxVersion(stream)))
  {
    var load, latest := LoadValid(db, project, manager), LatestSequence(db.events, project);
    LoadInOkState(db, project, manager);
    LatestSequenceIsLast(db.events, project);
    if load.Valid? && load.content.sequence > 0 {
      var at := load.content.sequence;
      var covered, delta := Prefix(db.events, project, at), Stream(db.events, project, at);
      StreamSplits(db.events, project, at);
      BootstrappedMore(covered, delta);
      var s := Reduce(Initial, covered);
      if at >= latest {
        assert covered + delta == covered;
        ToHeadInverse(project, s, at, MaxVersion(covered));
      } else {
        DeltaVersion(db.events, project, at);
        DeltaIsFull(project, covered, at, delta, MaxVersion(delta));
      }
    }
  }

  /** Which mode replay takes, and how many events it reads. */
  lemma ReplayMode(db: Database, project: string, manager: Manager)
    requires Ok(db) && Projected(db, project, manager).Built?
    ensures var r := Projected(db, project, manager).result;
            var last := if manager.Manager? && db.restoresHash then LastSequence(db.snapshots, project) else None;
            match last
            case None => r.mode == Full && r.eventsReplayed == |Stream(db.events, project, 0)|
            case Some(at) =>
              && r.mode == (if at == LatestSequence(db.events, project) then FastPath else if at > 0 then Delta else Full)
              && r.eventsReplayed == |Stream(db.events, project, at)|
  {
    LoadInOkState(db, project, manager);
    LatestSequenceIsLast(db.events, project);
  }

  // ----- The invariant holds after every run

  lemma MaxSequenceGrows(stream: seq<Event>, e: Event)
    ensures MaxSequence(stream) <= MaxSequence(stream + [e])
  {
    assert (stream + [e])[..|stream|] == stream;
  }

  lemma LatestGrows(events: seq<Event>, e: Event, project: string)
    ensures LatestSequence(events, project) <= LatestSequence(events + [e], project)
  {
    var stream := Stream(events, project, 0);
    StreamAppend(events, e, project, 0);
    MaxSequenceGrows(stream, e);
    assert Stream(events + [e], project, 0) == if e.project == project && e.sequence > 0 then stream + [e] else stream;
  }

  lemma SnapshotStaysOk(events: seq<Event>, e: Event, r: SnapshotRow)
    requires Numbered(events) && e.sequence == |events| + 1
    requires SnapshotOk(events, r)
    ensures SnapshotOk(events + [e], r)
  {
    var at := r.payload.content.sequence;
    LatestSequenceIsLast(events, r.project);
    LatestGrows(events, e, r.project);
    PrefixAppend(events, e, r.project, at);
    assert Prefix(events + [e], r.project, at) == Prefix(events, r.project, at);
  }

  lemma AppendKeepsOk(db: Database, project: string, actor: string, recordedAt: Option<string>, body: Body)
    requires Ok(db)
    ensures Ok(Step(db, Append(project, actor, recordedAt, body)))
  {
    var e := NextEvent(db.events, project, actor, recordedAt, body);
    AppendKeepsLedger(db.events, project, actor, recordedAt, body);
    forall r | r in db.snapshots ensures RowOk(db.events + [e], r) {
      if r.payload.content.sequence > 0 {
        SnapshotStaysOk(db.events, e, r);
      } else {
        StreamAppend(db.events, e, r.project, 0);
        BootstrappedMore(Stream(db.events, r.project, 0), if e.project == r.project && e.sequence > 0 then [e] else []);
      }
    }
  }

  lemma CompileKeepsOk(db: Database, project: string, manager: Manager, saveSucceeds: bool)
    requires Ok(db)
    ensures Ok(Compile(db, project, manager, saveSucceeds).0)
  {
    if Compile(db, project, manager, saveSucceeds).0 != db { StoredIsExact(db, project, manager); }
  }

  /** What a compile saves: the snapshot of the whole stream. */
  lemma StoredIsExact(db: Database, project: string, manager: Manager)
    requires Ok(db) && Projected(db, project, manager).Built?
    ensures var stream, latest := Stream(db.events, project, 0), LatestSequence(db.events, project);
            SnapshotOk(db.events, SnapshotRow(project, FromHead(Projected(db, project, manager).result.head, latest, Reduce(Initial, stream)).WithHash()))
  {
    var stream, latest := Stream(db.events, project, 0), LatestSequence(db.events, project);
    ReplayOutcome(db, project, manager);
    LatestSequenceIsLast(db.events, project);
    assert FromHead(Projected(db, project, manager).result.head, latest, Reduce(Initial, stream)) == SnapshotOf(project, stream, latest);
  }

  /** What the platform saves: a row without sequence and items, of a bootstrapped project. */
  lemma PlatformCompileKeepsOk(db: Database, project: string, manager: Manager, saveSucceeds: bool)
    requires Ok(db)
    ensures Ok(PlatformCompile(db, project, manager, saveSucceeds).0)
  {
    LoadInOkState(db, project, manager);
    StreamBootstrapped(db, project, manager);
  }

  /** With a valid snapshot the project's stream is bootstrapped, and so not empty. */
  lemma StreamBootstrapped(db: Database, project: string, manager: Manager)
    requires Ok(db)
    ensures LoadValid(db, project, manager).Valid? ==> Bootstrapped(Stream(db.events, project, 0)) && LatestSequence(db.events, project) > 0
  {
    LoadInOkState(db, project, manager);
    LatestSequenceIsLast(db.events, project);
    var load := LoadValid(db, project, manager);
    if load.Valid? && load.content.sequence > 0 {
      var at := load.content.sequence;
      StreamSplits(db.events, project, at);
      BootstrappedMore(Prefix(db.events, project, at), Stream(db.events, project, at));
    }
  }

  lemma StepKeepsOk(db: Database, a: Action)
    requires Ok(db)
    ensures Ok(Step(db, a))
  {
    match a
    case Append(p, actor, at, body) => AppendKeepsOk(db, p, actor, at, body);
    case CompileHead(p, manager, saves) => CompileKeepsOk(db, p, manager, saves);
    case PlatformCompileHead(p, manager, saves) => PlatformCompileKeepsOk(db, p, manager, saves);
    case DeleteSnapshots(p, before) => DeleteElements(db.snapshots, p, before);
  }

  lemma StepKeepsStore(db: Database, a: Action)
    ensures Step(db, a).restoresHash == db.restoresHash
  {
  }

  lemma {:induction false} RunKeepsOk(db: Database, actions: seq<Action>)
    requires Ok(db)
    ensures Ok(Run(db, actions)) && Run(db, actions).restoresHash == db.restoresHash
  {
    if actions != [] {
      var n := |actions| - 1;
      RunKeepsOk(db, actions[..n]);
      StepKeepsOk(Run(db, actions[..n]), actions[n]);
      StepKeepsStore(Run(db, actions[..n]), actions[n]);
    }
  }

  /** Every reachable state of the vault is in order. */
  lemma RunOk(restoresHash: bool, actions: seq<Action>)
    ensures Ok(Run(Database([], [], restoresHash), actions))
    ensures Run(Database([], [], restoresHash), actions).restoresHash == restoresHash
  {
    RunKeepsOk(Database([], [], restoresHash), actions);
  }

  /** In a reachable state the dicts of stored payloads are proper, as the in-place engine requires. */
  lemma OkDicts(db: Database)
    requires Ok(db)
    ensures DictsOk(db)
  {
    forall r | r in db.snapshots
      ensures Consistent(r.payload.content.tasks) && Consistent(r.payload.content.decisions) && Consistent(r.payload.content.questions)
    {
      assert RowOk(db.events, r);
      ReduceKeyed(Initial, Prefix(db.events, r.project, r.payload.content.sequence));
    }
  }

  /** Two snapshots of a project at one sequence are equal, or hold no items and are at sequence 0. */
  lemma EqualSequenceEqualSnapshot(restoresHash: bool, actions: seq<Action>, a: SnapshotRow, b: SnapshotRow)
    requires a in Run(Database([], [], restoresHash), actions).snapshots
    requires b in Run(Database([], [], restoresHash), actions).snapshots
    requires a.project == b.project && a.payload.content.sequence == b.payload.content.sequence
    ensures a == b || (a.payload.content.sequence == 0 && NoItems(ToHead(a.payload.content)) && NoItems(ToHead(b.payload.content)))
  {
    RunOk(restoresHash, actions);
    var db := Run(Database([], [], restoresHash), actions);
    assert RowOk(db.events, a) && RowOk(db.events, b);
  }

  // ----- Snapshot-assisted replay against full replay, after every run

  /** Every stored item belongs in the head, and the lists are in priority order already. */
  ghost predicate AllCurrent(s: State) {
    && (forall t | t in Values(s.tasks) :: IsActive(t)) && Sorted(Values(s.tasks), TaskLeq)
    && (forall d | d in Values(s.decisions) :: IsAccepted(d))
    && (forall q | q in Values(s.questions) :: IsOpen(q)) && Sorted(Values(s.questions), QuestionLeq)
  }

  lemma SelectionIsIdentity<T(!new)>(xs: seq<T>, p: T -> bool, leq: (T, T) -> bool)
    requires TotalPreorder(leq)
    ensures StableSort(Filter(p, xs), leq) == xs <==> (forall x | x in xs :: p(x)) && Sorted(xs, leq)
  {
    SortKeepsElements(Filter(p, xs), leq);
    FilterAll(p, xs);
    if forall x | x in xs :: p(x) {
      SortIsIdentity(xs, leq);
    }
  }

  lemma UnfilteredExact(project: string, s: State, version: int)
    ensures UnfilteredHead(project, s, version) == HeadOf(project, s, version) <==> AllCurrent(s)
  {
    SelectionIsIdentity(Values(s.tasks), IsActive, TaskLeq);
    SelectionIsIdentity(Values(s.questions), IsOpen, QuestionLeq);
    FilterAll(IsAccepted, Values(s.decisions));
  }

  /** A snapshot that can be validated covers the project's last event: what makes replay take the fast path. */
  predicate SnapshotIsLatest(db: Database, project: string, manager: Manager) {
    manager.Manager? && db.restoresHash && LastSequence(db.snapshots, project) == Some(LatestSequence(db.events, project))
  }

  lemma FastPathExact(db: Database, project: string, manager: Manager)
    requires Ok(db) && Projected(db, project, manager).Built?
    ensures Projected(db, project, manager).result.mode == FastPath <==> SnapshotIsLatest(db, project, manager)
  {
    ReplayMode(db, project, manager);
  }

  /**
   Main theorem. After every run, a compile fails exactly when full replay would, and returns
   the head of full replay exactly when no valid snapshot covers the project's last event, or
   every item of the project is current.
   */
  lemma SnapshotReplayExact(restoresHash: bool, actions: seq<Action>, project: string, manager: Manager, saveSucceeds: bool)
    ensures var db := Run(Database([], [], restoresHash), actions);
            var stream := Stream(db.events, project, 0);
            var head := Compile(db, project, manager, saveSucceeds).1;
            && (head.None? <==> !Bootstrapped(stream))
            && (head.Some? ==>
                  (head.value == FullHead(db.events, project) <==>
                   !SnapshotIsLatest(db, project, manager) || AllCurrent(Reduce(Initial, stream))))
  {
    RunOk(restoresHash, actions);
    var db := Run(Database([], [], restoresHash), actions);
    var stream := Stream(db.events, project, 0);
    ReplayOutcome(db, project, manager);
    if Projected(db, project, manager).Built? { FastPathExact(db, project, manager); }
    UnfilteredExact(project, Reduce(Initial, stream), MaxVersion(stream));
  }

  /** The fast-path head is the head of full replay once it is filtered and sorted as full replay does. */
  lemma FastPathRefiltered(restoresHash: bool, actions: seq<Action>, project: string, manager: Manager)
    ensures var db := Run(Database([], [], restoresHash), actions);
            var outcome := Projected(db, project, manager);
            outcome.Built? && SnapshotIsLatest(db, project, manager) ==>
              var h := outcome.result.head;
              h.(activeTasks := SelectTasks(h.activeTasks), activeDecisions := SelectDecisions(h.activeDecisions),
                 openQuestions := SelectQuestions(h.openQuestions)) == FullHead(db.events, project)
  {
    RunOk(restoresHash, actions);
    var db := Run(Database([], [], restoresHash), actions);
    ReplayOutcome(db, project, manager);
    if Projected(db, project, manager).Built? { FastPathExact(db, project, manager); }
  }

  /** A store that drops the hash from the payload never gets past full replay. */
  lemma DroppedHashMeansFullReplay(actions: seq<Action>, project: string, manager: Manager)
    ensures var db := Run(Database([], [], false), actions);
            Projected(db, project, manager).Built? ==> Projected(db, project, manager).result.mode == Full
  {
    RunOk(false, actions);
    var db := Run(Database([], [], false), actions);
    if Projected(db, project, manager).Built? { ReplayMode(db, project, manager); }
  }

  // ----- How much a compile replays

  lemma {:induction false} StreamLength(events: seq<Event>, project: string, since: int)
    requires Numbered(events)
    ensures var s := Stream(events, project, since);
            s != [] ==> s[|s| - 1] in events && |s| <= s[|s| - 1].sequence - since
  {
    if events != [] {
      var n := |events| - 1;
      StreamLength(events[..n], project, since);
      var before := Stream(events[..n], project, since);
      if before != [] {
        assert before[|before| - 1].sequence <= n;
      }
    }
  }

  /** A project has no more events after a sequence than sequences up to its latest one. */
  lemma StreamLengthBound(events: seq<Event>, project: string, since: int)
    requires Numbered(events) && 0 <= since <= LatestSequence(events, project)
    ensures |Stream(events, project, since)| <= LatestSequence(events, project) - since
  {
    var s := Stream(events, project, since);
    StreamLength(events, project, since);
    if s != [] {
      var last := s[|s| - 1];
      assert last in s;
      StreamElements(events, project, since);
      StreamElements(events, project, 0);
      LatestSequenceBounds(Stream(events, project, 0));
    }
  }

  lemma RefreshBoundsLag(db: Database, project: string, threshold: int, payload: Payload, current: int)
    requires threshold >= 1 && payload.content.sequence == current
    requires forall r | r in db.snapshots && r.project == project :: r.payload.content.sequence <= current
    ensures var last := LastSequence(Refresh(db, project, threshold, payload, current, true).snapshots, project);
            last.Some? && last.value <= current < last.value + threshold
  {
    var after := Refresh(db, project, threshold, payload, current, true);
    LatestSnapshotExact(db.snapshots, project);
    LatestSnapshotExact(after.snapshots, project);
    if ShouldSnapshot(threshold, current, LastSequence(db.snapshots, project)) {
      assert after.snapshots[|db.snapshots|] in after.snapshots;
    }
  }

  /** After a compile whose save does not fail, the latest snapshot lags by less than the threshold. */
  lemma CompileBoundsLag(db: Database, project: string, threshold: int)
    requires Ok(db) && threshold >= 1 && Compile(db, project, Manager(threshold), true).1.Some?
    ensures var after := Compile(db, project, Manager(threshold), true).0;
            var last := LastSequence(after.snapshots, project);
            last.Some? && 0 <= last.value <= LatestSequence(after.events, project) < last.value + threshold
  {
    var after := Compile(db, project, Manager(threshold), true).0;
    var current := LatestSequence(db.events, project);
    forall r | r in db.snapshots && r.project == project ensures r.payload.content.sequence <= current {
      assert RowOk(db.events, r);
      LatestSequenceIsLast(db.events, project);
    }
    RefreshBoundsLag(db, project, threshold,
                     FromHead(Projected(db, project, Manager(threshold)).result.head, current, Reduce(Initial, Stream(db.events, project, 0))),
                     current);
    CompileKeepsOk(db, project, Manager(threshold), true);
    LatestSnapshotExact(after.snapshots, project);
    assert RowOk(after.events, LatestSnapshot(after.snapshots, project).value);
  }

  ghost predicate NoDeletes(actions: seq<Action>) {
    forall a | a in actions :: !a.DeleteSnapshots?
  }

  lemma CompileGrows(db: Database, project: string, manager: Manager, saveSucceeds: bool)
    ensures var after := Compile(db, project, manager, saveSucceeds).0; db.events == after.events && db.snapshots <= after.snapshots
  {
  }

  lemma PlatformCompileGrows(db: Database, project: string, manager: Manager, saveSucceeds: bool)
    ensures var after := PlatformCompile(db, project, manager, saveSucceeds).0; db.events == after.events && db.snapshots <= after.snapshots
  {
  }

  lemma StepGrows(db: Database, a: Action)
    requires !a.DeleteSnapshots?
    ensures db.events <= Step(db, a).events && db.snapshots <= Step(db, a).snapshots
  {
    match a
    case Append(_, _, _, _) =>
    case CompileHead(p, manager, saves) => CompileGrows(db, p, manager, saves);
    case PlatformCompileHead(p, manager, saves) => PlatformCompileGrows(db, p, manager, saves);
  }

  lemma {:induction false} RunGrows(db: Database, actions: seq<Action>)
    requires NoDeletes(actions)
    ensures db.events <= Run(db, actions).events
    ensures forall r | r in db.snapshots :: r in Run(db, actions).snapshots
  {
    if actions != [] {
      var n := |actions| - 1;
      RunGrows(db, actions[..n]);
      assert actions[n] in actions;
      StepGrows(Run(db, actions[..n]), actions[n]);
    }
  }

  lemma SnocOfBoth<T>(xs: seq<T>, ys: seq<T>)
    requires ys != []
    ensures var n := |ys| - 1; ys == ys[..n] + [ys[n]] && xs + ys == (xs + ys[..n]) + [ys[n]]
  {
  }

  lemma Reassociate<T>(a: seq<T>, b: seq<T>, c: seq<T>)
    ensures (a + b) + c == a + (b + c)
  {
  }

  lemma {:induction false} StreamExtends(events: seq<Event>, more: seq<Event>, project: string, since: int)
    ensures Stream(events + more, project, since) == Stream(events, project, since) + Stream(more, project, since)
  {
    if more == [] {
      assert events + more == events;
    } else {
      var n := |more| - 1;
      StreamExtends(events, more[..n], project, since);
      StreamAppend(events + more[..n], more[n], project, since);
      StreamAppend(more[..n], more[n], project, since);
      SnocOfBoth(events, more);
      Reassociate(Stream(events, project, since), Stream(more[..n], project, since),
                  if more[n].project == project && more[n].sequence > since then [more[n]] else []);
    }
  }

  lemma {:induction false} LaterStream(more: seq<Event>, project: string, low: int, high: int)
    requires low <= high
    ensures |Stream(more, project, high)| <= |Stream(more, project, low)|
    ensures (forall e | e in more :: e.sequence > high) ==> |Stream(more, project, high)| == |Stream(more, project, low)|
  {
    if more != [] {
      var n := |more| - 1;
      LaterStream(more[..n], project, low, high);
      assert more == more[..n] + [more[n]];
    }
  }

  lemma DeltaLengthBound(events: seq<Event>, more: seq<Event>, project: string, first: int, last: int, threshold: int)
    requires Numbered(events + more) && 0 <= first <= last
    requires first <= LatestSequence(events, project) < first + threshold
    ensures |Stream(events + more, project, last)| <=
            |Stream(events + more, project, 0)| - |Stream(events, project, 0)| + threshold - 1
  {
    forall i | 0 <= i < |events| ensures events[i].sequence == i + 1 { assert events[i] == (events + more)[i]; }
    LatestSequenceIsLast(events, project);
    forall e | e in more ensures e.sequence > first {
      var i :| 0 <= i < |more| && more[i] == e;
      assert (events + more)[|events| + i] == e;
    }
    LaterStream(events + more, project, first, last);
    StreamExtends(events, more, project, first);
    StreamExtends(events, more, project, 0);
    LaterStream(more, project, 0, first);
    StreamLengthBound(events, project, first);
  }

  /** Snapshots are never lost without a deletion, so the latest one only moves forward. */
  lemma LatestSnapshotAdvances(db: Database, actions: seq<Action>, project: string)
    requires Ok(db) && NoDeletes(actions) && LastSequence(db.snapshots, project).Some?
    ensures var later := LastSequence(Run(db, actions).snapshots, project);
            later.Some? && LastSequence(db.snapshots, project).value <= later.value
  {
    RunGrows(db, actions);
    LatestSnapshotExact(db.snapshots, project);
    LatestSnapshotExact(Run(db, actions).snapshots, project);
  }

  lemma PrefixAndRest<T>(xs: seq<T>, ys: seq<T>)
    requires xs <= ys
    ensures ys == xs + ys[|xs|..]
  {
  }

  lemma RunNumbered(db: Database, actions: seq<Action>)
    requires Ok(db)
    ensures Numbered(Run(db, actions).events)
  {
    RunKeepsOk(db, actions);
  }

  lemma RunAppends(db: Database, actions: seq<Action>) returns (more: seq<Event>)
    requires Ok(db) && NoDeletes(actions)
    ensures Run(db, actions).events == db.events + more && Numbered(db.events + more)
  {
    RunNumbered(db, actions);
    RunGrows(db, actions);
    PrefixAndRest(db.events, Run(db, actions).events);
    more := Run(db, actions).events[|db.events|..];
  }

  lemma LagBound(db: Database, project: string, threshold: int, actions: seq<Action>)
    requires Ok(db) && NoDeletes(actions) && LastSequence(db.snapshots, project).Some?
    requires 0 <= LastSequence(db.snapshots, project).value <= LatestSequence(db.events, project)
    requires LatestSequence(db.events, project) < LastSequence(db.snapshots, project).value + threshold
    ensures var later := Run(db, actions);
            var last := LastSequence(later.snapshots, project);
            last.Some? &&
            |Stream(later.events, project, last.value)| <=
              |Stream(later.events, project, 0)| - |Stream(db.events, project, 0)| + threshold - 1
  {
    var more := RunAppends(db, actions);
    LatestSnapshotAdvances(db, actions, project);
    DeltaLengthBound(db.events, more, project, LastSequence(db.snapshots, project).value,
                     LastSequence(Run(db, actions).snapshots, project).value, threshold);
  }

  /** How many events replay reads, when the latest snapshot lagged by less than the threshold some steps ago. */
  lemma ReplayAfterLag(db: Database, project: string, threshold: int, actions: seq<Action>, manager: Manager)
    requires Ok(db) && db.restoresHash && NoDeletes(actions) && manager.Manager?
    requires LastSequence(db.snapshots, project).Some?
    requires 0 <= LastSequence(db.snapshots, project).value <= LatestSequence(db.events, project)
    requires LatestSequence(db.events, project) < LastSequence(db.snapshots, project).value + threshold
    ensures var later := Run(db, actions);
            var outcome := Projected(later, project, manager);
            outcome.Built? &&
            outcome.result.eventsReplayed <=
              |Stream(later.events, project, 0)| - |Stream(db.events, project, 0)| + threshold - 1
  {
    RunKeepsOk(db, actions);
    RunGrows(db, actions);
    LagBound(db, project, threshold, actions);
    ReplayLength(Run(db, actions), project, manager);
  }

  /**
   If saves succeed and nothing is deleted, a later compile replays at most the events that the
   project has gained since this one, plus threshold - 1, although all projects share the sequences.
   */
  lemma ReplayedEventsBound(db: Database, project: string, threshold: int, actions: seq<Action>, manager: Manager)
    requires Ok(db) && db.restoresHash && threshold >= 1 && Compile(db, project, Manager(threshold), true).1.Some?
    requires NoDeletes(actions) && manager.Manager?
    ensures var later := Run(Compile(db, project, Manager(threshold), true).0, actions);
            var outcome := Projected(later, project, manager);
            outcome.Built? &&
            outcome.result.eventsReplayed <=
              |Stream(later.events, project, 0)| - |Stream(db.events, project, 0)| + threshold - 1
  {
    CompileBoundsLag(db, project, threshold);
    CompileKeepsOk(db, project, Manager(threshold), true);
    var after := Compile(db, project, Manager(threshold), true).0;
    assert after.events == db.events && after.restoresHash;
    ReplayAfterLag(after, project, threshold, actions, manager);
  }

  lemma ReplayLength(db: Database, project: string, manager: Manager)
    requires Ok(db) && db.restoresHash && manager.Manager? && LastSequence(db.snapshots, project).Some?
    ensures var outcome := Projected(db, project, manager);
            outcome.Built? &&
            outcome.result.eventsReplayed == |Stream(db.events, project, LastSequence(db.snapshots, project).value)|
  {
    LoadInOkState(db, project, manager);
    LatestSequenceIsLast(db.events, project);
  }

  // ----- The fast path does differ

  const Bodies: seq<Body> := [
    ProjectCreated(None), ProjectGoalSet(None), ProjectFocusChanged(None),
    TaskCreated("t", "s", "b", None, None, None, None), TaskCompleted("t")]

  /** Append the bodies to one project, then compile. */
  function AppendAll(bodies: seq<Body>): seq<Action> {
    if bodies == [] then []
    else
      var n := |bodies| - 1;
      AppendAll(bodies[..n]) + [Append("p", "a", None, bodies[n])]
  }

  /** Only this project, nothing compiled yet, and these bodies in the ledger. */
  ghost predicate Appended(db: Database, bodies: seq<Body>) {
    && db.snapshots == [] && db.restoresHash && |db.events| == |bodies|
    && (forall i | 0 <= i < |bodies| :: db.events[i].body == bodies[i])
    && Stream(db.events, "p", 0) == db.events
  }

  lemma AppendMore(db: Database, bodies: seq<Body>, body: Body)
    requires Ok(db) && Appended(db, bodies)
    ensures Appended(Step(db, Append("p", "a", None, body)), bodies + [body])
  {
    AppendKeepsLedger(db.events, "p", "a", None, body);
    StreamAppend(db.events, NextEvent(db.events, "p", "a", None, body), "p", 0);
  }

  lemma RunSnoc(db: Database, actions: seq<Action>, a: Action)
    ensures Run(db, actions + [a]) == Step(Run(db, actions), a)
  {
    assert (actions + [a])[..|actions|] == actions;
  }

  lemma AppendOneMore(actions: seq<Action>, bodies: seq<Body>, body: Body)
    requires Appended(Run(Database([], [], true), actions), bodies)
    ensures Appended(Run(Database([], [], true), actions + [Append("p", "a", None, body)]), bodies + [body])
  {
    RunOk(true, actions);
    RunSnoc(Database([], [], true), actions, Append("p", "a", None, body));
    AppendMore(Run(Database([], [], true), actions), bodies, body);
  }

  lemma AppendAllSnoc(bodies: seq<Body>)
    requires bodies != []
    ensures AppendAll(bodies) == AppendAll(bodies[..|bodies| - 1]) + [Append("p", "a", None, bodies[|bodies| - 1])]
  {
  }

  lemma {:induction false} AppendAllRun(bodies: seq<Body>)
    ensures Appended(Run(Database([], [], true), AppendAll(bodies)), bodies)
  {
    if bodies != [] {
      var n := |bodies| - 1;
      AppendAllRun(bodies[..n]);
      AppendOneMore(AppendAll(bodies[..n]), bodies[..n], bodies[n]);
      AppendAllSnoc(bodies);
      SnocOfBoth([], bodies);
    }
  }

  lemma NoTaskYet(events: seq<Event>)
    requires |events| == 5 && forall i | 0 <= i < 5 :: events[i].body == Bodies[i]
    ensures FoldTasks(Empty(), events[..3]) == Empty()
  {
    FoldSnoc(StepTasks, Empty(), events, 0);
    FoldSnoc(StepTasks, Empty(), events, 1);
    FoldSnoc(StepTasks, Empty(), events, 2);
  }

  lemma TaskCreatedThen(events: seq<Event>)
    requires |events| == 5 && forall i | 0 <= i < 5 :: events[i].body == Bodies[i]
    ensures FoldTasks(Empty(), events[..4]) == Set(Empty(), "t", NewTask(events[3]))
  {
    NoTaskYet(events);
    FoldSnoc(StepTasks, Empty(), events, 3);
  }

  lemma CompletesTask(tasks: OMap<Task>, e: Event)
    requires e.body == TaskCompleted("t") && "t" in tasks.at
    ensures var r := StepTasks(tasks, e); "t" in r.at && r.at["t"].status == "completed"
  {
  }

  lemma CompletedTaskIsStored(events: seq<Event>)
    requires |events| == 5 && forall i | 0 <= i < 5 :: events[i].body == Bodies[i]
    ensures var tasks := FoldTasks(Empty(), events);
            "t" in tasks.at && tasks.at["t"].status == "completed" && tasks.at["t"] in Values(tasks)
  {
    TaskCreatedThen(events);
    FoldSnoc(StepTasks, Empty(), events, 4);
    assert events[..5] == events;
    CompletesTask(FoldTasks(Empty(), events[..4]), events[4]);
    var tasks := FoldTasks(Empty(), events);
    TasksKeyed(Empty(), events);
    InValues(tasks, tasks.at["t"]);
  }

  /** A completed task, compiled twice: the second compile takes the fast path and lists it as active. */
  lemma FastPathShowsCompletedTask()
    ensures var db := Run(Database([], [], true), AppendAll(Bodies) + [CompileHead("p", Manager(100), true)]);
            var outcome := Projected(db, "p", Manager(100));
            && outcome.Built? && outcome.result.mode == FastPath
            && (exists t :: t in outcome.result.head.activeTasks && t.status == "completed")
            && outcome.result.head != FullHead(db.events, "p")
  {
    var actions := AppendAll(Bodies);
    var db := Run(Database([], [], true), actions);
    AppendAllRun(Bodies);
    RunOk(true, actions);
    var all := actions + [CompileHead("p", Manager(100), true)];
    assert all[..|actions|] == actions;
    var after := Run(Database([], [], true), all);
    assert after == Compile(db, "p", Manager(100), true).0;
    var e := db.events;
    assert e[0] in e && e[1] in e && e[2] in e;
    assert Bootstrapped(e);
    RunOk(true, all);
    assert LastSequence(after.snapshots, "p") == Some(LatestSequence(e, "p")) by {
      FirstCompileSaves(db, "p", 100);
    }
    ReplayLength(after, "p", Manager(100));
    ReplayMode(after, "p", Manager(100));
    ReplayOutcome(after, "p", Manager(100));
    CompletedTaskIsStored(e);
    UnfilteredExact("p", Reduce(Initial, e), MaxVersion(e));
    assert FoldTasks(Empty(), e).at["t"] in Projected(after, "p", Manager(100)).result.head.activeTasks;
  }

  lemma FirstCompileSaves(db: Database, project: string, threshold: int)
    requires Ok(db) && db.snapshots == [] && Bootstrapped(Stream(db.events, project, 0))
    ensures LastSequence(Compile(db, project, Manager(threshold), true).0.snapshots, project) == Some(LatestSequence(db.events, project))
  {
    var after := Compile(db, project, Manager(threshold), true).0;
    ReplayOutcome(db, project, Manager(threshold));
    assert |after.snapshots| == 1 && after.snapshots[0].project == project;
    assert after.snapshots[0].payload.content.sequence == LatestSequence(db.events, project);
    LatestOfOne(after.snapshots, project);
  }

  lemma LatestOfOne(rows: seq<SnapshotRow>, project: string)
    requires |rows| == 1 && rows[0].project == project
    ensures LastSequence(rows, project) == Some(rows[0].payload.content.sequence)
  {
    LatestSnapshotExact(rows, project);
    assert rows[0] in rows;
  }
}
