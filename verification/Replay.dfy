/**
 The replay engine as a function: fast path, delta or full replay; the compiler, which refreshes
 the snapshot afterwards; and the store object. Module ReplayEngine runs it on objects.
 */
module Replay {
  import opened Wrappers
  import opened OrderedMaps
  import opened Folds
  import opened Heads
  import opened Snapshots
  import opened Ledger

  /** The two tables. `restoresHash`: a loaded payload carries the hash it was saved with. */
  datatype Database = Database(events: seq<Event>, snapshots: seq<SnapshotRow>, restoresHash: bool)

  /** A snapshot manager with an event-count policy, or the null manager. */
  datatype Manager = NullManager | Manager(threshold: int)

  datatype Invalidity = NotFound | HashMismatch | SchemaVersion | ProjectionVersion | FutureSequence

  datatype Load = Valid(content: Content) | Invalid(reason: Invalidity)

  datatype Mode = Full | Delta | FastPath

  datatype ReplayResult = ReplayResult(
    head: Head, mode: Mode, eventsReplayed: int, eventsReused: int, snapshotValid: bool, snapshotUsed: bool,
    snapshotSequence: int, latestSequence: int)

  datatype Outcome = Built(result: ReplayResult) | MissingBootstrap

  // ----- SnapshotManager

  /** `load_valid_snapshot` */
  function LoadValid(db: Database, project: string, manager: Manager): Load {
    match LatestSnapshot(db.snapshots, project)
    case None => Invalid(NotFound)
    case Some(row) =>
      var payload := if db.restoresHash then row.payload else Payload(row.payload.content, NoDigest);
      if manager.NullManager? then Invalid(NotFound)
      else if !payload.ValidateHash() then Invalid(HashMismatch)
      else if payload.content.schemaVersion != SCHEMA_VERSION then Invalid(SchemaVersion)
      else if payload.content.projectionVersion != PROJECTION_VERSION then Invalid(ProjectionVersion)
      else if payload.content.sequence > LatestSequence(db.events, project) then Invalid(FutureSequence)
      else Valid(payload.content)
  }

  /** `EventCountPolicy.should_snapshot` */
  predicate ShouldSnapshot(threshold: int, current: int, last: Option<int>) {
    last.None? || current - last.value >= threshold
  }

  function LastSequence(snapshots: seq<SnapshotRow>, project: string): Option<int> {
    match LatestSnapshot(snapshots, project)
    case None => None
    case Some(row) => Some(row.payload.content.sequence)
  }

  /** `refresh_snapshot`; a save that raises is swallowed. */
  function Refresh(db: Database, project: string, threshold: int, payload: Payload, current: int, saveSucceeds: bool): Database {
    if ShouldSnapshot(threshold, current, LastSequence(db.snapshots, project)) && saveSucceeds
    then db.(snapshots := db.snapshots + [SnapshotRow(project, payload.WithHash())])
    else db
  }

  // ----- ReplayEngine

  predicate Bootstrapped(events: seq<Event>) {
    && (exists e | e in events :: e.body.ProjectCreated?)
    && (exists e | e in events :: e.body.ProjectGoalSet?)
    && (exists e | e in events :: e.body.ProjectFocusChanged?)
  }

  /** Replaying the whole stream from empty: the meaning of the head. */
  function FullHead(events: seq<Event>, project: string): Head {
    var stream := Stream(events, project, 0);
    HeadOf(project, Reduce(Initial, stream), MaxVersion(stream))
  }

  /** What `build_projection` returns. */
  function Projected(db: Database, project: string, manager: Manager): Outcome {
    var load := LoadValid(db, project, manager);
    var latest := LatestSequence(db.events, project);
    if load.Valid? && load.content.sequence >= latest then
      Built(ReplayResult(ToHead(load.content), FastPath, 0, load.content.sequence, true, true, load.content.sequence, latest))
    else if load.Valid? && load.content.sequence > 0 then
      var delta := Stream(db.events, project, load.content.sequence);
      Built(ReplayResult(HeadOf(project, Reduce(Rebuild(load.content), delta), MaxVersion(delta)), Delta,
                         |delta|, load.content.sequence, true, true, load.content.sequence, latest))
    else
      var stream := Stream(db.events, project, 0);
      if !Bootstrapped(stream) then MissingBootstrap
      else Built(ReplayResult(FullHead(db.events, project), Full, |stream|, 0, load.Valid?, false,
                              if load.Valid? then load.content.sequence else 0, latest))
  }

  ghost predicate DictsOk(db: Database) {
    forall r | r in db.snapshots ::
      Consistent(r.payload.content.tasks) && Consistent(r.payload.content.decisions) && Consistent(r.payload.content.questions)
  }

  // ----- The compiler

  /** `compile_cognitive_head`: the tables afterwards, and the head unless it raises. */
  function Compile(db: Database, project: string, manager: Manager, saveSucceeds: bool): (Database, Option<Head>) {
    match Projected(db, project, manager)
    case MissingBootstrap => (db, None)
    case Built(r) =>
      if manager.NullManager? then (db, Some(r.head))
      else
        var current := LatestSequence(db.events, project);
        var payload := FromHead(r.head, current, Reduce(Initial, Stream(db.events, project, 0)));
        (Refresh(db, project, manager.threshold, payload, current, saveSucceeds), Some(r.head))
  }

  /** The store object, with the tables it changes. */
  class Store {
    var events: seq<Event>
    var snapshots: seq<SnapshotRow>
    const restoresHash: bool

    constructor (restores: bool)
      ensures Db() == Database([], [], restores)
    {
      events, snapshots, restoresHash := [], [], restores;
    }

    function Db(): Database
      reads this
    {
      Database(events, snapshots, restoresHash)
    }

    method AppendEvent(project: string, actor: string, recordedAt: Option<string>, body: Body) returns (e: Event)
      modifies this`events
      ensures e == NextEvent(old(events), project, actor, recordedAt, body)
      ensures events == old(events) + [e]
    {
      var nextVersion := MaxVersion(Stream(events, project, 0)) + 1;
      var sequence := MaxSequence(events) + 1;
      e := Event(sequence, project, nextVersion, actor, recordedAt, body);
      events := events + [e];
    }

    method SaveSnapshot(project: string, payload: Payload)
      modifies this`snapshots
      ensures snapshots == old(snapshots) + [SnapshotRow(project, payload)]
    {
      snapshots := snapshots + [SnapshotRow(project, payload)];
    }

    method DeleteSnapshotsBefore(project: string, sequence: int) returns (deleted: int)
      modifies this`snapshots
      ensures snapshots == DeleteBefore(old(snapshots), project, sequence)
      ensures deleted == |old(snapshots)| - |snapshots|
    {
      var kept := DeleteBefore(snapshots, project, sequence);
      deleted := |snapshots| - |kept|;
      snapshots := kept;
    }
  }
}
