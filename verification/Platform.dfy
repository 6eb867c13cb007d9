/**
 The projection platform's compiler as a function: fast path, delta or full replay of the cognitive
 head, and the snapshot it saves, which is read back from the serialised head and so has neither a
 sequence nor items.
 */
module Platform {
  import opened Wrappers
  import opened OrderedMaps
  import opened Folds
  import opened Heads
  import opened HeadReduction
  import opened Snapshots
  import opened Ledger
  import opened Replay

  /** The head, or why the compile raised; no store defines the method that delta replay calls. */
  datatype PlatformOutcome = Compiled(head: Head) | NotBootstrapped | NoSuchMethod

  /** The payload that `from_dict` makes of a serialised head, whose keys for items and sequence are not those it reads. */
  function PlatformPayload(h: Head): Payload {
    Payload(Content(0, SCHEMA_VERSION, PROJECTION_VERSION, h.projectId, h.projectName, h.projectGoal, h.currentFocus,
                    h.ledgerVersion, Empty(), Empty(), Empty(), h.blockers),
            NoDigest)
  }

  /** The state the compile reduces to when it does not raise: from the restored head if there is one. */
  function PlatformReduced(load: Load, stream: seq<Event>): Option<Head> {
    if load.Valid? then Some(ReduceFrom(ToHead(load.content), stream)) else ReduceFull(stream)
  }

  /** `_save_snapshot` */
  function SaveHead(db: Database, project: string, manager: Manager, h: Head, saveSucceeds: bool): Database {
    match manager
    case NullManager => db
    case Manager(threshold) => Refresh(db, project, threshold, PlatformPayload(h), LatestSequence(db.events, project), saveSucceeds)
  }

  /** `compile` of the cognitive head: the tables afterwards, and the outcome. */
  function PlatformCompile(db: Database, project: string, manager: Manager, saveSucceeds: bool): (Database, PlatformOutcome) {
    var load := LoadValid(db, project, manager);
    if load.Valid? && load.content.sequence >= LatestSequence(db.events, project) then (db, Compiled(ToHead(load.content)))
    else if load.Valid? && load.content.sequence > 0 then (db, NoSuchMethod)
    else
      match PlatformReduced(load, Stream(db.events, project, 0))
      case None => (db, NotBootstrapped)
      case Some(h) => (SaveHead(db, project, manager, h, saveSucceeds), Compiled(h))
  }
}
