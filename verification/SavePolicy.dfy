/** When a compile saves a snapshot, and what that means for the rows of a run. */
module SavePolicy {
  import opened Heads
  import opened Ledger
  import opened Replay
  import opened Platform
  import opened PlatformRuns
  import opened Vault

  /** No row of the project is nearer to its latest event than the threshold. */
  ghost predicate Due(db: Database, project: string, threshold: int) {
    forall r | r in db.snapshots && r.project == project :: LatestSequence(db.events, project) - r.payload.content.sequence >= threshold
  }

  lemma PolicyIsDue(db: Database, project: string, threshold: int)
    ensures ShouldSnapshot(threshold, LatestSequence(db.events, project), LastSequence(db.snapshots, project)) <==> Due(db, project, threshold)
  {
    LatestSnapshotExact(db.snapshots, project);
  }

  /** One more row, of this project and at this sequence, and nothing else changed. */
  ghost predicate OneMoreRow(before: Database, after: Database, project: string, sequence: int) {
    && |after.snapshots| == |before.snapshots| + 1
    && after == before.(snapshots := before.snapshots + [after.snapshots[|before.snapshots|]])
    && after.snapshots[|before.snapshots|].project == project
    && after.snapshots[|before.snapshots|].payload.content.sequence == sequence
  }

  /**
   A compile that gives a head saves one row, at the latest sequence, exactly when there is a manager,
   the save succeeds and every row of the project is at least the threshold behind.
   */
  lemma CompileSavesExact(db: Database, project: string, manager: Manager, saveSucceeds: bool)
    ensures var (after, head) := Compile(db, project, manager, saveSucceeds);
            if head.Some? && manager.Manager? && saveSucceeds && Due(db, project, manager.threshold)
            then OneMoreRow(db, after, project, LatestSequence(db.events, project)) else after == db
  {
    if manager.Manager? { PolicyIsDue(db, project, manager.threshold); }
  }

  lemma SaveHeadExact(db: Database, project: string, manager: Manager, h: Head, saveSucceeds: bool)
    ensures var after := SaveHead(db, project, manager, h, saveSucceeds);
            if manager.Manager? && saveSucceeds && Due(db, project, manager.threshold) then OneMoreRow(db, after, project, 0) else after == db
  {
    if manager.Manager? { PolicyIsDue(db, project, manager.threshold); }
  }

  /** The platform returns early when the loaded row is current. */
  lemma PlatformSaves(db: Database, project: string, manager: Manager, saveSucceeds: bool)
    ensures var load := LoadValid(db, project, manager);
            var (after, outcome) := PlatformCompile(db, project, manager, saveSucceeds);
            if outcome.Compiled? && !(load.Valid? && load.content.sequence >= LatestSequence(db.events, project))
            then after == SaveHead(db, project, manager, outcome.head, saveSucceeds) else after == db
  {
  }

  /** The same for the platform, whose rows are at sequence 0, unless a row at the latest sequence lets it return early. */
  lemma PlatformSavesExact(db: Database, project: string, manager: Manager, saveSucceeds: bool)
    requires Ok(db)
    ensures var (after, outcome) := PlatformCompile(db, project, manager, saveSucceeds);
            if outcome.Compiled? && !SnapshotIsLatest(db, project, manager) && manager.Manager? && saveSucceeds && Due(db, project, manager.threshold)
            then OneMoreRow(db, after, project, 0) else after == db
  {
    GuardsByLoad(db, project, manager);
    PlatformSaves(db, project, manager, saveSucceeds);
    var outcome := PlatformCompile(db, project, manager, saveSucceeds).1;
    if outcome.Compiled? { SaveHeadExact(db, project, manager, outcome.head, saveSucceeds); }
  }

  // ----- Whole runs

  /** The project is compiled by this compiler only, with thresholds of at least `gap`. */
  ghost predicate Patient(actions: seq<Action>, project: string, gap: int) {
    forall a | a in actions ::
      && (a.CompileHead? && a.project == project && a.manager.Manager? ==> a.manager.threshold >= gap)
      && !(a.PlatformCompileHead? && a.project == project)
  }

  /** Rows of the project are at least `gap` apart, the later ones further on. */
  ghost predicate Spaced(rows: seq<SnapshotRow>, project: string, gap: int) {
    forall i, j | 0 <= i < j < |rows| && rows[i].project == rows[j].project == project ::
      rows[j].payload.content.sequence - rows[i].payload.content.sequence >= gap
  }

  lemma {:induction false} DeletionKeepsSpaced(rows: seq<SnapshotRow>, project: string, gap: int, p: string, sequence: int)
    requires Spaced(rows, project, gap)
    ensures Spaced(DeleteBefore(rows, p, sequence), project, gap)
  {
    if rows != [] {
      var n := |rows| - 1;
      var kept := DeleteBefore(rows[..n], p, sequence);
      DeletionKeepsSpaced(rows[..n], project, gap, p, sequence);
      DeleteElements(rows[..n], p, sequence);
      forall i | 0 <= i < |kept| && kept[i].project == rows[n].project == project
        ensures rows[n].payload.content.sequence - kept[i].payload.content.sequence >= gap
      {
        assert kept[i] in rows[..n];
      }
    }
  }

  lemma StepKeepsSpaced(db: Database, a: Action, project: string, gap: int)
    requires Patient([a], project, gap) && Spaced(db.snapshots, project, gap)
    ensures Spaced(Step(db, a).snapshots, project, gap)
  {
    assert a in [a];
    match a
    case Append(_, _, _, _) =>
    case CompileHead(p, manager, saves) => CompileSavesExact(db, p, manager, saves);
    case PlatformCompileHead(p, manager, saves) => PlatformRowsOf(db, p, manager, saves);
    case DeleteSnapshots(p, before) => DeletionKeepsSpaced(db.snapshots, project, gap, p, before);
  }

  lemma PlatformRowsOf(db: Database, project: string, manager: Manager, saveSucceeds: bool)
    ensures var after := PlatformCompile(db, project, manager, saveSucceeds).0;
            after.snapshots == db.snapshots ||
            (|after.snapshots| == |db.snapshots| + 1 && db.snapshots <= after.snapshots && after.snapshots[|db.snapshots|].project == project)
  {
  }

  /** Over every run, whatever is deleted, the stored rows of a project are at least the smallest threshold apart. */
  lemma {:induction false} RowsSpaced(restoresHash: bool, actions: seq<Action>, project: string, gap: int)
    requires Patient(actions, project, gap)
    ensures Spaced(Run(Database([], [], restoresHash), actions).snapshots, project, gap)
  {
    if actions != [] {
      var n := |actions| - 1;
      assert actions[n] in actions;
      RowsSpaced(restoresHash, actions[..n], project, gap);
      StepKeepsSpaced(Run(Database([], [], restoresHash), actions[..n]), actions[n], project, gap);
    }
  }
}
