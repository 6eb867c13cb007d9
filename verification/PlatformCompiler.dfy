/** The projection platform's compiler on objects: it restores a head, reduces onto it, and saves a snapshot. */
module PlatformCompiler {
  import opened Wrappers
  import opened Folds
  import opened HeadReduction
  import opened Heads
  import opened HeadProjection
  import opened LiveObjects
  import opened Platform
  import opened Reducers
  import opened Replay
  import opened ReplayEngine
  import opened Snapshots
  import opened Ledger

  // ----- A head restored from a payload: objects and lists of its own

  /** Another restored task, with a list of its own. */
  lemma RestoredMore(own: set<NoteList>, es: seq<Entry<LiveTask>>, ts: seq<Task>, e: Entry<LiveTask>, list: NoteList, t: Task)
    requires TaskObjectsAre(own, es, ts) && list !in own
    requires e.value == LiveTask(t, list) && list.notes == t.progressNotes && e.key == t.taskId
    ensures TaskObjectsAre(own + {list}, es + [e], ts + [t])
  {
  }

  method RestoreTasks(ts: seq<Task>) returns (es: seq<Entry<LiveTask>>, ghost own: set<NoteList>)
    ensures fresh(own) && fresh(es) && TaskObjectsAre(own, es, ts)
  {
    es, own := [], {};
    for i := 0 to |ts|
      invariant fresh(own) && fresh(es) && TaskObjectsAre(own, es, ts[..i])
    {
      var list := new NoteList(ts[i].progressNotes);
      var e := new Entry(ts[i].taskId, LiveTask(ts[i], list));
      assert ts[..i + 1] == ts[..i] + [ts[i]];
      RestoredMore(own, es, ts[..i], e, list, ts[i]);
      es, own := es + [e], own + {list};
    }
    assert ts[..|ts|] == ts;
  }

  method RestoreObjects<V>(vs: seq<V>, id: V -> string) returns (es: seq<Entry<V>>)
    ensures fresh(es) && ObjectsAre(es, vs, id)
  {
    es := [];
    for i := 0 to |vs|
      invariant fresh(es) && ObjectsAre(es, vs[..i], id)
    {
      var e := new Entry(id(vs[i]), vs[i]);
      es := es + [e];
    }
    assert vs[..|vs|] == vs;
  }

  /** `deserialize` of a payload. */
  method Restore(c: Content) returns (s: SharedHead, ghost own: set<NoteList>)
    ensures s.head == ToHead(c) && Shares(s, own)
    ensures fresh(own) && fresh(s.tasks) && fresh(s.decisions) && fresh(s.questions)
  {
    var head := ToHead(c);
    var tasks;
    tasks, own := RestoreTasks(head.activeTasks);
    var decisions := RestoreObjects(head.activeDecisions, HeadReduction.DecisionIdOf);
    var questions := RestoreObjects(head.openQuestions, HeadReduction.QuestionIdOf);
    s := SharedHead(head, tasks, decisions, questions);
  }

  class ProjectionCompiler {
    const projection: CognitiveHeadProjection
    var health: Health

    constructor (p: CognitiveHeadProjection)
      ensures projection == p && health == Unknown
    {
      projection, health := p, Unknown;
    }

    /** The call of `reduce`, with the restored head if there is one. */
    method ReduceStream(load: Load, stream: seq<Event>) returns (head: Option<Head>)
      modifies projection
      ensures head == PlatformReduced(load, stream)
    {
      var events, lists := DecodeEvents(stream);
      FewerLists(lists, events, stream);
      if load.Valid? {
        var initial, own := Restore(load.content);
        var h, now := projection.ReduceDelta(events, initial, stream, EventLists(events), own);
        head := Some(h);
      } else {
        head := projection.Reduce(events, stream, EventLists(events));
      }
    }

    /** `_save_snapshot` and `refresh_snapshot`. */
    method Save(project: string, store: Store, manager: Manager, h: Head, saveSucceeds: bool)
      modifies store`snapshots
      ensures store.Db() == SaveHead(old(store.Db()), project, manager, h, saveSucceeds)
    {
      if manager.NullManager? { return; }
      var current := LatestSequence(store.events, project);
      if ShouldSnapshot(manager.threshold, current, LastSequence(store.snapshots, project)) && saveSucceeds {
        store.SaveSnapshot(project, PlatformPayload(h).WithHash());
      }
    }

    /** `compile` of the cognitive head, which has no dependencies. */
    method Compile(project: string, store: Store, manager: Manager, saveSucceeds: bool) returns (outcome: PlatformOutcome)
      modifies this, projection, store`snapshots
      ensures (store.Db(), outcome) == PlatformCompile(old(store.Db()), project, manager, saveSucceeds)
      ensures health == if outcome.Compiled? then Ready else Failed
    {
      health := Building;
      var load := LoadValid(store.Db(), project, manager);
      var latest := LatestSequence(store.events, project);
      if load.Valid? && load.content.sequence >= latest {
        health := Ready;
        return Compiled(ToHead(load.content));
      }
      if load.Valid? && load.content.sequence > 0 {
        health := Failed;
        return NoSuchMethod;
      }
      var head := ReduceStream(load, Stream(store.events, project, 0));
      if head.None? {
        health := Failed;
        return NotBootstrapped;
      }
      Save(project, store, manager, head.value, saveSucceeds);
      health := Ready;
      outcome := Compiled(head.value);
    }
  }
}
