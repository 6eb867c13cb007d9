/**
 The platform's compiler after every run of the vault, against full replay and against the cognitive
 head's own compiler, whose output it is meant to equal.
 */
module PlatformRuns {
  import opened Wrappers
  import opened Folds
  import opened Heads
  import opened HeadReduction
  import opened Snapshots
  import opened Ledger
  import opened Replay
  import opened Platform
  import opened Vault

  /** A valid snapshot lies before the project's last event, so that delta replay would be due. */
  predicate DeltaIsDue(db: Database, project: string, manager: Manager) {
    && manager.Manager? && db.restoresHash && LastSequence(db.snapshots, project).Some?
    && 0 < LastSequence(db.snapshots, project).value < LatestSequence(db.events, project)
  }

  lemma StreamOfProject(events: seq<Event>, project: string)
    ensures forall e | e in Stream(events, project, 0) :: e.project == project
  {
    StreamElements(events, project, 0);
  }

  /** Reducing a project's whole stream from nothing, or onto a row that the platform saved, is full replay. */
  lemma ReducedIsFull(db: Database, project: string, manager: Manager)
    requires Ok(db)
    requires var load := LoadValid(db, project, manager); load.Valid? ==> load.content.sequence == 0
    ensures var stream := Stream(db.events, project, 0);
            PlatformReduced(LoadValid(db, project, manager), stream) ==
            if Bootstrapped(stream) then Some(FullHead(db.events, project)) else None
  {
    var load, stream := LoadValid(db, project, manager), Stream(db.events, project, 0);
    StreamOfProject(db.events, project);
    LoadInOkState(db, project, manager);
    StreamBootstrapped(db, project, manager);
    if load.Valid? { ReduceOntoNoItems(ToHead(load.content), stream); }
  }

  /** The guards in terms of what a load returns. */
  lemma GuardsByLoad(db: Database, project: string, manager: Manager)
    requires Ok(db)
    ensures var load, latest := LoadValid(db, project, manager), LatestSequence(db.events, project);
            && (load.Valid? ==> 0 <= load.content.sequence <= latest && latest > 0)
            && (DeltaIsDue(db, project, manager) <==> load.Valid? && 0 < load.content.sequence < latest)
            && (SnapshotIsLatest(db, project, manager) <==> load.Valid? && load.content.sequence == latest)
  {
    LoadInOkState(db, project, manager);
    StreamBootstrapped(db, project, manager);
  }

  lemma LatestRowHead(db: Database, project: string, manager: Manager)
    requires Ok(db) && SnapshotIsLatest(db, project, manager)
    ensures var stream := Stream(db.events, project, 0);
            var load := LoadValid(db, project, manager);
            load.Valid? && ToHead(load.content) == UnfilteredHead(project, Reduce(Initial, stream), MaxVersion(stream))
  {
    GuardsByLoad(db, project, manager);
    ReplayOutcome(db, project, manager);
  }

  /** The outcome of a platform compile in a state that satisfies the invariant. */
  lemma OutcomeInOkState(db: Database, project: string, manager: Manager, saveSucceeds: bool)
    requires Ok(db)
    ensures var stream := Stream(db.events, project, 0);
            match PlatformCompile(db, project, manager, saveSucceeds).1
            case NotBootstrapped => !Bootstrapped(stream) && !DeltaIsDue(db, project, manager)
            case NoSuchMethod => Bootstrapped(stream) && DeltaIsDue(db, project, manager)
            case Compiled(h) =>
              && Bootstrapped(stream) && !DeltaIsDue(db, project, manager)
              && h == if SnapshotIsLatest(db, project, manager)
                      then UnfilteredHead(project, Reduce(Initial, stream), MaxVersion(stream)) else FullHead(db.events, project)
  {
    GuardsByLoad(db, project, manager);
    StreamBootstrapped(db, project, manager);
    if SnapshotIsLatest(db, project, manager) {
      LatestRowHead(db, project, manager);
    } else if !DeltaIsDue(db, project, manager) {
      ReducedIsFull(db, project, manager);
    }
  }

  /**
   Main theorem on the platform. After every run of both compilers a platform compile raises for
   lack of bootstrap events exactly when full replay would, calls a method that no store has
   exactly when a valid snapshot lies before the project's last event, and otherwise returns the
   head of full replay exactly under the guard for the cognitive head's own compiler.
   */
  lemma PlatformExact(restoresHash: bool, actions: seq<Action>, project: string, manager: Manager, saveSucceeds: bool)
    ensures var db := Run(Database([], [], restoresHash), actions);
            var stream := Stream(db.events, project, 0);
            var outcome := PlatformCompile(db, project, manager, saveSucceeds).1;
            && (outcome.NotBootstrapped? <==> !Bootstrapped(stream))
            && (outcome.NoSuchMethod? <==> DeltaIsDue(db, project, manager))
            && (outcome.Compiled? ==>
                  (outcome.head == FullHead(db.events, project) <==>
                   !SnapshotIsLatest(db, project, manager) || AllCurrent(Reduce(Initial, stream))))
  {
    RunOk(restoresHash, actions);
    var db := Run(Database([], [], restoresHash), actions);
    var stream := Stream(db.events, project, 0);
    OutcomeInOkState(db, project, manager, saveSucceeds);
    UnfilteredExact(project, Reduce(Initial, stream), MaxVersion(stream));
  }

  /** The two compilers give the same head, or both raise, exactly when no delta is due. */
  lemma CompilersAgreeExact(restoresHash: bool, actions: seq<Action>, project: string, manager: Manager, saveSucceeds: bool)
    ensures var db := Run(Database([], [], restoresHash), actions);
            var platform := PlatformCompile(db, project, manager, saveSucceeds).1;
            var head := Compile(db, project, manager, saveSucceeds).1;
            (if platform.Compiled? then head == Some(platform.head) else head == None) <==> !DeltaIsDue(db, project, manager)
  {
    RunOk(restoresHash, actions);
    var db := Run(Database([], [], restoresHash), actions);
    OutcomeInOkState(db, project, manager, saveSucceeds);
    ReplayOutcome(db, project, manager);
    if Projected(db, project, manager).Built? { FastPathExact(db, project, manager); }
  }

  /** No compile by the cognitive head's own compiler. */
  ghost predicate PlatformOnly(actions: seq<Action>) {
    forall a | a in actions :: !a.CompileHead?
  }

  lemma StepSavesNoSequence(db: Database, a: Action)
    requires !a.CompileHead? && forall r | r in db.snapshots :: r.payload.content.sequence == 0
    ensures forall r | r in Step(db, a).snapshots :: r.payload.content.sequence == 0
  {
    if a.DeleteSnapshots? { DeleteElements(db.snapshots, a.project, a.before); }
  }

  lemma {:induction false} RowsWithoutSequence(restoresHash: bool, actions: seq<Action>)
    requires PlatformOnly(actions)
    ensures forall r | r in Run(Database([], [], restoresHash), actions).snapshots :: r.payload.content.sequence == 0
  {
    if actions != [] {
      var n := |actions| - 1;
      RowsWithoutSequence(restoresHash, actions[..n]);
      assert actions[n] in actions;
      StepSavesNoSequence(Run(Database([], [], restoresHash), actions[..n]), actions[n]);
    }
  }

  /** On rows that it saved itself the platform always gives full replay, and never saves it any work. */
  lemma OwnRowsMeanFullReplay(restoresHash: bool, actions: seq<Action>, project: string, manager: Manager, saveSucceeds: bool)
    requires PlatformOnly(actions)
    ensures var db := Run(Database([], [], restoresHash), actions);
            PlatformCompile(db, project, manager, saveSucceeds).1 ==
            if Bootstrapped(Stream(db.events, project, 0)) then Compiled(FullHead(db.events, project)) else NotBootstrapped
  {
    var db := Run(Database([], [], restoresHash), actions);
    RunOk(restoresHash, actions);
    RowsWithoutSequence(restoresHash, actions);
    LatestSnapshotExact(db.snapshots, project);
    LatestSequenceIsLast(db.events, project);
    OutcomeInOkState(db, project, manager, saveSucceeds);
  }

  lemma LatestIsAppended(events: seq<Event>, project: string, actor: string, recordedAt: Option<string>, body: Body)
    requires LedgerOk(events)
    ensures var e := NextEvent(events, project, actor, recordedAt, body);
            LatestSequence(events + [e], project) == e.sequence > LatestSequence(events, project)
  {
    var e := NextEvent(events, project, actor, recordedAt, body);
    AppendKeepsLedger(events, project, actor, recordedAt, body);
    LatestSequenceIsLast(events, project);
    LatestSequenceIsLast(events + [e], project);
    StreamAppend(events, e, project, LatestSequence(events, project));
    StreamAppend(events, e, project, e.sequence - 1);
  }

  /** Once the latest event is covered by a snapshot, the next event makes a delta due. */
  lemma AppendMakesDelta(db: Database, project: string, threshold: int, actor: string, body: Body)
    requires Ok(db) && db.restoresHash && LastSequence(db.snapshots, project) == Some(LatestSequence(db.events, project))
    requires LatestSequence(db.events, project) > 0
    ensures DeltaIsDue(Step(db, Append(project, actor, None, body)), project, Manager(threshold))
  {
    LatestIsAppended(db.events, project, actor, None, body);
  }

  /** One compile by the cognitive head's compiler and one event later, the platform's compiler raises. */
  lemma NextEventBreaksPlatform(body: Body)
    ensures var actions := AppendAll(Bodies) + [CompileHead("p", Manager(100), true)] + [Append("p", "a", None, body)];
            PlatformCompile(Run(Database([], [], true), actions), "p", Manager(100), true).1 == NoSuchMethod
  {
    var start, all := Database([], [], true), AppendAll(Bodies);
    var compiled := all + [CompileHead("p", Manager(100), true)];
    CompiledBodies();
    RunOk(true, compiled);
    AppendMakesDelta(Run(start, compiled), "p", 100, "a", body);
    RunSnoc(start, compiled, Append("p", "a", None, body));
    PlatformExact(true, compiled + [Append("p", "a", None, body)], "p", Manager(100), true);
  }

  lemma CompiledBodies()
    ensures var db := Run(Database([], [], true), AppendAll(Bodies) + [CompileHead("p", Manager(100), true)]);
            db.restoresHash && LastSequence(db.snapshots, "p") == Some(LatestSequence(db.events, "p")) && LatestSequence(db.events, "p") > 0
  {
    AppendAllRun(Bodies);
    RunOk(true, AppendAll(Bodies));
    RunSnoc(Database([], [], true), AppendAll(Bodies), CompileHead("p", Manager(100), true));
    CompiledAfterBodies(Run(Database([], [], true), AppendAll(Bodies)));
  }

  lemma CompiledAfterBodies(db: Database)
    requires Ok(db) && Appended(db, Bodies)
    ensures var after := Compile(db, "p", Manager(100), true).0;
            && after.restoresHash && LastSequence(after.snapshots, "p") == Some(LatestSequence(after.events, "p"))
            && LatestSequence(after.events, "p") > 0
  {
    var e := db.events;
    assert e[0] in e && e[1] in e && e[2] in e;
    FirstCompileSaves(db, "p", 100);
    LatestSequenceIsLast(e, "p");
  }
}
