# RationaleVault: verified model

A Dafny model of RationaleVault's event ledger, its snapshot-assisted replay, and the belief pipeline
on top of it, with proofs of what the system promises. The code mutates dicts, lists and objects in
place, and so does the model: reducers, belief propagation, the embedding builder, the governance
projection and the store are methods over objects and loops, each proved against a function, and the
theorems are about those functions. Lists of progress notes are objects too, since TASK_MUTATED makes
tasks share them with event payloads.

| Module | What it models |
|---|---|
| Wrappers, Orders, OrderedMaps | Missing values; stable sorting; Python dicts as a key order with a map; folds |
| Folds, SharedNotes | The four reducers as folds; which payload list a task holds, and what reducing does to the events |
| Histories | What the reducers leave, read off the events alone |
| LiveObjects, Reducers | Task objects, event payloads and lists of notes on the heap; the reducers as loops that change them |
| Heads, HeadOrder | The cognitive head: filtering, priority order, blockers; its lists by the names of priorities and by the events |
| Snapshots | Snapshot payloads, their rows, and the integrity hash |
| Ledger, Replay, Vault | The two tables; the replay engine and compiler as functions; runs of the whole state machine |
| SavePolicy | When a compile saves a snapshot, and how far apart the rows of a run are |
| ReplayEngine | The replay engine and compiler on decoded objects, with the list copies of delta replay |
| HeadReduction, HeadProjection | The projection-platform reducer of the head, as a function and on objects |
| DeltaFromHead, HeadChains | Delta replay from a filtered head, once and over any number of heads |
| Platform, PlatformRuns, PlatformCompiler | The platform's compiler as a function; its outcome after any run; the compiler on objects |
| SupportGraph, Propagation, PropagationLaws | Kahn's algorithm; the propagation pass, its equations and their laws |
| ConceptMaps, BeliefOrder, Beliefs | Which belief stands for a concept; independence of every order; belief objects updated in place |
| Aggregation | The active knowledge of all states, grouped by normalised title into evidence bundles |
| Synthesis, DecisionGate, Engine | Candidates and ranking; the policy gate; the pipeline from knowledge states to decisions |
| AssessmentLaws | What more or less evidence does to a confidence, and to those that it supports |
| BeliefIds | When two beliefs of the pipeline share an id, and what that does to a concept's confidence |
| Contradictions, ContradictionKinds | The contradiction detector; when it reports which kind of finding |
| Embedding, Governance, Canonical | The incremental vector cache; governance rules; canonical form |

Projects, ids and times are strings. A dict is an ordered map, so list equality is proved, not only
set equality. Where Python iterates over a set, the model uses the order of the dict it came from,
or chooses freely; `BeliefOrder.AnyOrder`, `Orders.SortOfSet` and `Governance.SortedKeys` show that the
order does not reach the result. A belief's id is the text that its digest is taken of; other SHA-256
ids are values of injective datatypes. Confidences are reals.

## Where the code and its claims differ

- README.md:225 calls snapshot-assisted replay observationally equivalent to full replay. On the fast
  path the code returns every stored task, decision and question unfiltered and in dict order, so the
  claim fails there: `Vault.FastPathShowsCompletedTask` is a run where it does, and
  `Vault.SnapshotReplayExact` states exactly when it holds. On delta and full replay it always holds.
- The shipped stores save the payload without its hash (rationalevault/db/sqlite_store.py:301) while
  validation looks for the hash in the payload, so every load is a hash mismatch and every compile a
  full replay: `Vault.DroppedHashMeansFullReplay`. The other theorems cover both that store and one that
  returns the payload with its hash, as the `SnapshotStore` interface suggests; the field `restoresHash`
  says which, and the bound on replayed events needs the latter.
- rationalevault/cognitive_head/reducers.py:5 says that the same events always give the same state. A
  TASK_MUTATED that assigns progress notes makes the task hold the list of the event payload, and a later
  TASK_PROGRESS_NOTED appends to it (reducers.py:220-243). So reducing can change the events, and a second
  reduce of the same event objects can give other tasks and change the first result:
  `SharedNotes.SecondReduceDiffers` is an input, `SharedNotes.ReduceTwiceExact` and
  `Reducers.ReduceTasksTwice` say exactly when it does not happen, and
  `SharedNotes.ReplayLawOnSharedEvents` does so for the replay law of README.md:225. Events read from the
  store are new objects each time, and there the law holds.
- Law 4 of the platform (rationalevault/projection_platform/models.py:7) asks that replaying B onto the
  head of A gives the head of A + B, and a comment at
  rationalevault/cognitive_head/cognitive_head_projection.py:301 speaks of including completed tasks. The
  head holds active items only, and the code does not look further. `DeltaFromHead.HeadDeltaExact` and
  `HeadChains.ChainExact` state exactly when the law holds, for one and for any number of splits;
  `DeltaFromHead.ReopenedTaskIsLost` and `DeltaFromHead.AcceptedDecisionIsLost` are inputs where it fails.
- compile_cognitive_head_v2 promises output identical to compile_cognitive_head
  (rationalevault/cognitive_head/compiler.py:240-241). The two agree, over every run of both, exactly when
  no valid snapshot of positive sequence lies before the last event (`PlatformRuns.CompilersAgreeExact`): there the
  platform calls get_events_since (rationalevault/projection_platform/compiler.py:94), which no store
  defines, and raises. `PlatformRuns.NextEventBreaksPlatform` is a run. The platform's own snapshots never
  lead there, since what it saves is read from the serialised head and has neither sequence nor items; so
  with these alone every compile is a full replay (`PlatformRuns.OwnRowsMeanFullReplay`).
- tests/unit/test_belief_construction.py:166 expects the order of the beliefs given to propagate_beliefs
  not to matter. It does not with distinct belief ids (`BeliefOrder.AnyOrder`), and only then
  (`ConceptMaps.MappedOrderExact`, `BeliefOrder.OrderExact`): `BeliefOrder.ListOrderMatters` is a list with
  two beliefs of one id, where a third belief's confidence depends on which of the two comes last.
- In `reason` the bundles come in the order of their titles, one for each title, so their order does not
  vary, and the order of the states does not matter unless a project has two different states
  (`Engine.StateOrderIrrelevant`, `Aggregation.StateOrderExact`, `Aggregation.SameProjectOrderMatters`).
  But a belief's id is the digest of title and content joined by a colon
  (rationalevault/cognitive_head/belief.py:34-38), so title "a" with content "b:c" and title "a:b" with
  content "c" share an id, and the first concept is then represented by the later belief.
  `BeliefIds.ReasonOwnBeliefs` says exactly when every concept has its own belief;
  `BeliefIds.LongerTitleTakesOver` is a state in which a concept of confidence 1 whose only supporter has
  confidence 1 ends at 0.6.
- The embedding state is documented as invalidated by a change of dimension as well
  (rationalevault/embedding/state.py:6-8); the builder compares provider, model and version only.
  `Embedding.OldDimensionSurvives` shows old vectors staying, `Embedding.InvalidatedExact` when they go.
- Under the default configurations the urgency bands CRITICAL and HIGH are unreachable
  (`Synthesis.NeverUrgent`).

## Model

| member | source | states |
|---|---|---|
| Vault.SnapshotReplayExact | rationalevault/cognitive_head/replay_engine.py:135-310 | After every run of appends to any projects, compiles by this compiler and by the platform's, failed saves and deletions: a compile fails exactly when full replay would; and it returns the head of full replay (lists in order, blockers, ledger version) if and only if there is no manager, or the store drops the hash, or the latest snapshot is not at the project's latest sequence, or every stored item is current and in priority order |
| Vault.RunOk | rationalevault/cognitive_head/compiler.py:166-228 | Every stored snapshot, in every reachable state, either holds exactly the reducer state, head and hash of its project's stream up to its sequence, which is positive and not in the future, or is one of the platform's: valid, at sequence 0 and without items, for a project with bootstrap events; versions and sequences stay well numbered |
| Vault.StepKeepsOk | rationalevault/cognitive_head/snapshot.py:257-287 | Each step (append, compile by either compiler with its save succeeding or failing, deletion) keeps that invariant |
| Vault.CompileKeepsOk | rationalevault/cognitive_head/compiler.py:166-228 | A compile in any replay mode stores nothing but such a snapshot |
| Vault.PlatformCompileKeepsOk | rationalevault/projection_platform/compiler.py:146-166 | A compile by the platform stores nothing but a snapshot without sequence and items |
| Vault.AppendKeepsOk | rationalevault/db/sqlite_store.py:85-131 | Appending to any project leaves every stored snapshot exact |
| Vault.EqualSequenceEqualSnapshot | rationalevault/db/sqlite_store.py:269-276 | Two stored snapshots of a project at one sequence are equal, or are at sequence 0 and hold no items, so the choice left open by ordering on the sequence alone reaches no head that is replayed |
| Vault.DeltaIsFull | rationalevault/cognitive_head/replay_engine.py:184-217 | Replaying a delta on the state rebuilt from a snapshot gives the head of replaying the covered prefix and the delta together |
| Vault.ReplayOutcome | rationalevault/cognitive_head/replay_engine.py:166-250 | What replay returns in each mode, and that it fails exactly without the three bootstrap events |
| Vault.ReplayMode | rationalevault/cognitive_head/replay_engine.py:170-219 | When each mode is taken in a reachable state, as a condition on the stored snapshots and the ledger |
| Vault.FastPathExact | rationalevault/cognitive_head/replay_engine.py:166-181 | The fast path is taken if and only if there is a manager, the store returns the hash, and the latest snapshot is at the project's latest sequence |
| Vault.FastPathRefiltered | rationalevault/cognitive_head/snapshot_payload.py:233-300 | The fast-path head equals the head of full replay once its lists are filtered by status and its tasks and questions stable-sorted by priority; all other fields are equal as they are |
| Vault.UnfilteredExact | rationalevault/cognitive_head/snapshot_payload.py:233-300 | The unfiltered head equals the filtered and sorted one if and only if every task is active, every decision accepted and every question open, with tasks and questions already in priority order |
| Vault.FastPathShowsCompletedTask | rationalevault/cognitive_head/replay_engine.py:170-181 | A concrete run where the second compile lists a completed task as active and differs from full replay |
| Vault.DroppedHashMeansFullReplay | rationalevault/db/sqlite_store.py:301 | With a store that loses the hash of the payload, as the shipped stores do, no compile ever takes the delta or the fast path |
| Vault.ReplayedEventsBound | rationalevault/cognitive_head/snapshot_policy.py:31-38 | If saves succeed and nothing is deleted, a later compile replays at most the project's events appended since the last one plus threshold - 1, although all projects share the sequences |
| Vault.CompileBoundsLag | rationalevault/cognitive_head/snapshot.py:270-279 | After a compile whose save succeeds, latest sequence minus latest snapshot sequence is below the threshold, whatever the platform has stored before |
| Vault.LatestSnapshotAdvances | rationalevault/db/sqlite_store.py:345-360 | Without deletions the latest snapshot sequence of a project never decreases, over any run |
| SavePolicy.CompileSavesExact | rationalevault/cognitive_head/snapshot_policy.py:31-38 | In every state, a compile saves one more row of its project, at the latest sequence, if and only if it gives a head, there is a manager, the save succeeds and every row of the project is at least the threshold behind the latest event; otherwise both tables are as they were |
| SavePolicy.PlatformSavesExact | rationalevault/projection_platform/compiler.py:86-114 | The same for the platform's compile, whose row is at sequence 0, and which saves nothing when a row at the latest sequence lets it return early |
| SavePolicy.RowsSpaced | rationalevault/cognitive_head/snapshot_policy.py:31-38 | Over every run in which the platform does not compile the project, whatever is deleted, two stored rows of the project are at least the smallest threshold apart, the later one further on |
| Vault.OkDicts | rationalevault/cognitive_head/snapshot_payload.py:223-231 | The dicts of every stored payload have consistent keys, the precondition of the in-place engine |
| ReplayEngine.BuildProjection | rationalevault/cognitive_head/replay_engine.py:135-310 | The engine, driving the in-place reducers on decoded objects, computes the outcome function `Projected` (head, mode, counters), or raises |
| ReplayEngine.DeltaHead | rationalevault/cognitive_head/replay_engine.py:184-217 | The delta branch on a loaded payload whose task rows hold lists of notes: the head of folding the delta over the decoded payload; no list of the payload changes and its content is what it was, while lists of the events may change |
| ReplayEngine.ReplayOnto | rationalevault/cognitive_head/replay_engine.py:256-299 | All four reducers in place, on objects and lists shared with the events, followed by the head build equal the folds followed by `HeadOf` |
| ReplayEngine.RebuildTasks | rationalevault/cognitive_head/replay_engine.py:197-200 | The task rows of a payload become new objects with the decoded values in the same order, each with a new list of notes that no other task has |
| ReplayEngine.CopyAllNotes | rationalevault/cognitive_head/replay_engine.py:330 | Every list of notes is copied into a new one, one for each row, and the copies hold the notes of the rows |
| ReplayEngine.DecodeEvents | rationalevault/db/sqlite_store.py:156-171 | Events read from the store are objects whose payload lists are new and in one place of one payload each |
| ReplayEngine.CompileCognitiveHead | rationalevault/cognitive_head/compiler.py:164-230 | One compile changes the tables and returns the head exactly as the step function of the state machine says |
| Replay.Store.AppendEvent | rationalevault/db/sqlite_store.py:85-143 | Appending adds one event with the next sequence and the next version of its project, and changes nothing else |
| Replay.Store.SaveSnapshot | rationalevault/db/sqlite_store.py:290-322 | Saving adds one row and keeps the others |
| Replay.Store.DeleteSnapshotsBefore | rationalevault/db/sqlite_store.py:324-343 | Deletion removes exactly the older rows of the project and returns how many |
| Ledger.AppendKeepsLedger | rationalevault/db/sqlite_store.py:85-131 | Appending to any project keeps sequences 1, 2, 3, ... and each project's versions exactly 1..n in sequence order; the new event has the next of both, and the project, actor, time and payload it is given |
| Ledger.StreamSplits | rationalevault/db/sqlite_store.py:156-171 | A project stream is its prefix up to any sequence followed by the stream since that sequence |
| Ledger.DeltaVersion | rationalevault/db/sqlite_store.py:156-171 | The largest version in a non-empty delta is the largest version of the whole stream |
| Ledger.LatestSequenceIsLast | rationalevault/db/sqlite_store.py:362-370 | Nothing follows the latest sequence, and a positive earlier position leaves a non-empty delta |
| Ledger.LatestSnapshotExact | rationalevault/db/sqlite_store.py:258-288 | The loaded snapshot is one of the project's with the largest sequence, and there is one if the project has any |
| Ledger.DeleteElements | rationalevault/db/sqlite_store.py:324-343 | What remains after a deletion is exactly what is not an older row of the project, each row as often as before |
| Ledger.DeleteKeepsOrder | rationalevault/db/sqlite_store.py:324-343 | Two rows that remain are in the order they had |
| Folds.ReduceSplit | rationalevault/cognitive_head/reducers.py:126-378 | reduce(A + B) equals reduce(B) started on reduce(A), for the four reducers and every split, on the values of the events when they are reduced |
| Folds.ReduceKeyed | rationalevault/cognitive_head/reducers.py:194-251 | In every reducer state each dict key equals the id of its item, and the dict order has no repeats |
| Histories.QuestionsExact | rationalevault/cognitive_head/reducers.py:338-378 | From any dict and any events: a question is known if and only if it was or is raised under an id; its fields are those of its last raise, if any; it is open from then on until it is resolved, with the text and the time of the last resolution |
| Histories.DecisionsExact | rationalevault/cognitive_head/reducers.py:273-320 | The same for decisions: the fields of the last proposal; accepted, superseded or proposed by the last event about it since; the time of the last acceptance and the successor of the last supersession since |
| Histories.TasksExact | rationalevault/cognitive_head/reducers.py:181-254 | The same for tasks: known if and only if it was or is created; each of the thirteen fields is what the last event that sets it makes of it (creation, a TASK_MUTATED that names it, TASK_COMPLETED for the status and its time, any TASK_MUTATED for the time of update), and the notes are that followed by those noted since |
| Histories.ProjectExact | rationalevault/cognitive_head/reducers.py:139-162 | Name, creation, goal and focus of the project are those of the last event about each, or as they were |
| Histories.TaskKeys | rationalevault/cognitive_head/reducers.py:187-215 | The dict of tasks holds its old ids in their order and then each new one when it is first created |
| Histories.DecisionKeys | rationalevault/cognitive_head/reducers.py:279-305 | The same for decisions, when first proposed |
| Histories.QuestionKeys | rationalevault/cognitive_head/reducers.py:344-367 | The same for questions, when first raised |
| SharedNotes.ReduceTwiceExact | rationalevault/cognitive_head/reducers.py:217-251 | Reducing the events that a first reduce has left gives the same tasks if and only if no task ends up with the payload list of a TASK_MUTATED to which a later TASK_PROGRESS_NOTED has appended |
| SharedNotes.EventsUnchangedExact | rationalevault/cognitive_head/reducers.py:217-251 | Reducing leaves the events as they are if and only if no TASK_PROGRESS_NOTED appends to a list that the task got from an earlier TASK_MUTATED |
| SharedNotes.ReplayLawOnSharedEvents | rationalevault/cognitive_head/reducers.py:3-21 | On event objects that have been reduced together once, reducing A and then B from there gives the tasks of A + B under exactly that condition |
| SharedNotes.SecondReduceDiffers | rationalevault/cognitive_head/reducers.py:217-251 | Created, given an empty list of notes, noted once: the first reduce changes the second event, and the second reduce shows the note twice |
| SharedNotes.HeldListGrown | rationalevault/cognitive_head/reducers.py:220-243 | The payload list that a task holds is what it was followed by exactly the notes of the task since |
| Reducers.ReduceProject | rationalevault/cognitive_head/reducers.py:139-162 | The in-place loop leaves the fold of the events in the state object |
| Reducers.ReduceTasks | rationalevault/cognitive_head/reducers.py:181-254 | The in-place loop over the dict of task objects leaves the fold of the events as they were, in dict order, and the events as `After` says; only the dict, its objects, the lists of its tasks and those in the events can change; a task keeps its object unless an event creates it again |
| Reducers.ApplyTaskEvent | rationalevault/cognitive_head/reducers.py:194-251 | One task event in place, for each event type, unknown ids and missing ids included, and which payload list each task holds afterwards |
| Reducers.MutateTask | rationalevault/cognitive_head/reducers.py:217-229 | The attribute loop of TASK_MUTATED: every declared field of the payload in order, a list of notes as the payload's own object, then the time |
| Reducers.AppendNote | rationalevault/cognitive_head/reducers.py:240-251 | Appending to a list changes the payload of the event that it belongs to, if any, and no other event |
| Reducers.ReduceTasksTwice | rationalevault/cognitive_head/reducers.py:3-11 | The same event objects reduced twice from nothing: the second result, and by then the first as well, is the fold of the events as the first reduce left them, which is the fold of the events as they were if and only if no task holds a payload list that has been appended to |
| Reducers.ReduceDecisions | rationalevault/cognitive_head/reducers.py:273-320 | The same for decisions |
| Reducers.ReduceQuestions | rationalevault/cognitive_head/reducers.py:338-378 | The same for questions |
| Reducers.Dict.Put | rationalevault/cognitive_head/reducers.py:201-215 | Assigning a new object to a key keeps the position of a known key and appends an unknown one |
| Heads.BlockersExact | rationalevault/cognitive_head/replay_engine.py:263-284 | One blocker entry for each known task that an open question blocks, none twice, with its title and exactly its blocking questions, sorted, without repeats |
| Heads.BuildHead | rationalevault/cognitive_head/replay_engine.py:256-299 | The head build over the dicts of objects equals `HeadOf` of their values |
| HeadOrder.HeadExact | rationalevault/cognitive_head/replay_engine.py:256-299 | For every state: the active tasks are exactly those not "completed", the open questions those "open", the decisions those "accepted" in dict order; in the first two every "critical" item comes before every other, then "high", then normal and unknown priorities, then "low", each group in dict order; the project's fields and the version are those of the state |
| HeadOrder.ListedUnique | rationalevault/cognitive_head/compiler.py:48-53 | Only one list meets that specification |
| HeadOrder.BlockersInOrder | rationalevault/cognitive_head/replay_engine.py:263-284 | The blocker entries come in the order in which their tasks are first met: the listed tasks that wait for an open question, in the order of the head, then the known tasks that open questions name |
| HeadOrder.ListedByEvents | rationalevault/cognitive_head/replay_engine.py:222-262 | In a head of full replay a task is listed if and only if it is created and the last event that sets its status does not make it "completed"; a decision if and only if the last event about it since its last proposal accepts it; a question if and only if it is raised and not resolved since |
| Heads.FindBlockers | rationalevault/cognitive_head/replay_engine.py:263-284 | The blocker loops compute the blocker list of the specification |
| Heads.BlockerMapExact | rationalevault/cognitive_head/replay_engine.py:264-274 | The blocker map records exactly the added pairs |
| Snapshots.TaskRoundTrip | rationalevault/cognitive_head/replay_engine.py:315-332 | Decoding the row that the compiler writes for a task gives the task back, field by field |
| Snapshots.DecisionRoundTrip | rationalevault/cognitive_head/replay_engine.py:335-349 | The same for decisions |
| Snapshots.QuestionRoundTrip | rationalevault/cognitive_head/replay_engine.py:352-365 | The same for questions |
| Snapshots.RebuildInverse | rationalevault/cognitive_head/replay_engine.py:190-208 | Rebuilding tasks, decisions and questions from a payload inverts storing them, dict order included, and a new payload validates |
| Snapshots.ToHeadInverse | rationalevault/cognitive_head/snapshot_payload.py:233-300 | The head rebuilt from a payload is the unfiltered head of the stored state |
| HeadProjection.CognitiveHeadProjection.Reduce | rationalevault/cognitive_head/cognitive_head_projection.py:88-178 | A full reduce on in-place state equals its specification, raises without bootstrap events, and sets the health |
| HeadProjection.CognitiveHeadProjection.ReduceDelta | rationalevault/cognitive_head/cognitive_head_projection.py:136-178 | A delta reduce, which updates the objects shared with the initial head, equals folding the delta over the state rebuilt from that head; afterwards each of those objects holds the folded value of its id, unless an event made the item again |
| HeadProjection.HeadToTasks | rationalevault/cognitive_head/cognitive_head_projection.py:295-303 | The dict built from the head shares the objects of the head, the last for each id, and is keyed by task id |
| DeltaFromHead.HeadDeltaExact | rationalevault/cognitive_head/cognitive_head_projection.py:136-175 | Delta replay from a filtered head against full replay: same project fields and open questions always; same active tasks if and only if the delta revives no completed task; same accepted decisions if and only if it accepts no known decision missing from the head; with the same active tasks, the same blockers of active tasks |
| DeltaFromHead.ActiveTasksExact | rationalevault/cognitive_head/cognitive_head_projection.py:295-303 | The active tasks agree if and only if no completed task gets, last of all, another status without being created again |
| DeltaFromHead.AcceptedDecisionsExact | rationalevault/cognitive_head/cognitive_head_projection.py:306-311 | The accepted decisions agree if and only if no known decision that the head lacks is accepted, last of all, without being proposed again |
| DeltaFromHead.OpenQuestionsAgree | rationalevault/cognitive_head/cognitive_head_projection.py:314-319 | The open questions agree for every delta |
| DeltaFromHead.ReopenedTaskIsLost | rationalevault/cognitive_head/cognitive_head_projection.py:295-303 | A concrete delta (reopening a completed task) for which the active tasks differ |
| DeltaFromHead.AcceptedDecisionIsLost | rationalevault/cognitive_head/cognitive_head_projection.py:306-311 | A decision proposed in the base and accepted in the delta: full replay shows it as active, replay from the head does not |
| HeadChains.ChainExact | rationalevault/projection_platform/models.py:7 | Any number of deltas reduced one after the other, each onto the head before, against full replay of all events: same project fields and open questions; same active tasks if and only if no boundary cuts a completed task from the events that revive it; same accepted decisions if and only if none cuts a known decision from its acceptance; with the tasks the same blockers; and the same ledger version when versions count the events |
| HeadChains.ChainTask | rationalevault/cognitive_head/cognitive_head_projection.py:295-303 | At any point of a chain a known task is missing from the head's active ones if and only if it was completed at some boundary, the present one included, and not created again since |
| HeadReduction.ReduceOntoNoItems | rationalevault/cognitive_head/cognitive_head_projection.py:136-178 | Reducing a stream with bootstrap events onto any head without items is reducing it from nothing |
| PlatformRuns.PlatformExact | rationalevault/projection_platform/compiler.py:49-121 | After every run of both compilers a platform compile raises for lack of bootstrap events exactly when full replay would; it calls the missing get_events_since exactly when the store keeps the hash and the latest snapshot has a positive sequence below the project's latest; and what it returns is the head of full replay if and only if no snapshot is at the latest sequence or every stored item is current and in priority order |
| PlatformRuns.CompilersAgreeExact | rationalevault/cognitive_head/compiler.py:233-272 | Over every run of both compilers, the platform's and the cognitive head's own return the same head or both raise, if and only if no valid snapshot of positive sequence lies before the project's last event |
| PlatformRuns.OwnRowsMeanFullReplay | rationalevault/projection_platform/compiler.py:146-166 | If only the platform has compiled, its compile always gives full replay, or raises without bootstrap events |
| PlatformRuns.NextEventBreaksPlatform | rationalevault/projection_platform/compiler.py:92-96 | One compile by the cognitive head's compiler and one event later, of any kind, the platform's compile raises |
| PlatformCompiler.ProjectionCompiler.Compile | rationalevault/projection_platform/compiler.py:49-121 | The compiler on restored objects and decoded events changes the tables and returns, or raises, as the function `PlatformCompile` says, and its health is ready or failed accordingly |
| PlatformCompiler.ProjectionCompiler.ReduceStream | rationalevault/projection_platform/compiler.py:100-108 | The reduce, with the restored head if a snapshot is valid, on new task objects with lists of their own |
| SupportGraph.KahnSort | rationalevault/cognitive_head/propagation.py:31-48 | Kahn's loop terminates, emits no concept twice, puts every source first, and emits all concepts if and only if the graph is acyclic, repeated edges and self-loops included |
| SupportGraph.BuildGraph | rationalevault/cognitive_head/propagation.py:15-29 | The adjacency lists are the support graph restricted to valid concepts, and each in-degree counts the edges, repeated ones included |
| SupportGraph.RestrictProper | rationalevault/cognitive_head/propagation.py:21-29 | The edges of the built graph are exactly the support pairs between valid concepts |
| SupportGraph.OrderedIsAcyclic | rationalevault/cognitive_head/propagation.py:45-48 | A graph whose nodes are all emitted has no cycle |
| SupportGraph.StuckIsCyclic | rationalevault/cognitive_head/propagation.py:45-48 | A graph that leaves a node behind has a cycle |
| SupportGraph.ReleaseTargets | rationalevault/cognitive_head/propagation.py:40-43 | The inner loop lowers each degree once for each edge and queues exactly the nodes that become ready |
| Propagation.PassSolves | rationalevault/cognitive_head/propagation.py:68-100 | Along a topological order the pass ends in a solution of the propagation equations: every adjustment is the least of its start and the penalties of its parents' final confidences, and every confidence touched is the clamped sum |
| PropagationLaws.SolutionUnique | rationalevault/cognitive_head/propagation.py:68-100 | On an acyclic graph the equations have only one solution |
| PropagationLaws.PassOrderIrrelevant | rationalevault/cognitive_head/propagation.py:68-100 | From given start numbers, the result does not depend on the topological order, the order of edges, or repeated edges |
| PropagationLaws.Bounded | rationalevault/cognitive_head/propagation.py:83-84 | Started from assessed beliefs, adjustments are not positive and every final confidence is between 0 and its local confidence |
| PropagationLaws.PropagationMonotone | rationalevault/cognitive_head/propagation.py:68-100 | Raising local confidences lowers no final confidence, for an attenuation of at least 0 |
| PropagationLaws.ShortfallByDistance | rationalevault/cognitive_head/propagation.py:76-84 | If exactly one belief falls short of 1, by d, a belief at k edges from it by its shortest support path falls short by exactly d * attenuation^k, and one without a path not at all |
| Beliefs.PropagateBeliefs | rationalevault/cognitive_head/propagation.py:8-102 | The whole engine on belief objects: with a cycle every field of every belief is as before; otherwise the numbers in the list solve the equations started from the list as it was, assessments follow the numbers, dependents are extended, and beliefs of no concept are untouched; of different objects with one id all but the last keep their numbers |
| BeliefOrder.AnyOrder | rationalevault/cognitive_head/propagation.py:50-100 | Two runs on the same beliefs in any order, the same support pairs in any order and number, and the same concepts in any order if no two share an id: with distinct belief ids every belief ends with the same numbers |
| BeliefOrder.OrderExact | rationalevault/cognitive_head/propagation.py:50-56 | For freshly assessed beliefs and an acyclic graph, every order of the list has the same solution if and only if no two different beliefs share the id of a concept |
| BeliefOrder.SupportAnyOrder | rationalevault/cognitive_head/propagation.py:21-29 | For one list of beliefs, whatever ids they share, support pairs in any order and number leave the same numbers throughout the list |
| BeliefOrder.ListOrderMatters | rationalevault/cognitive_head/propagation.py:50-56 | A list of three with two beliefs of one id: when the two change places, the third's confidence goes from 0.6 to 1.0 |
| ConceptMaps.MappedOrderExact | rationalevault/cognitive_head/propagation.py:50-56 | Every order of the list gives the same belief map if and only if no two different beliefs share the id of a concept |
| ConceptMaps.MappedExact | rationalevault/cognitive_head/propagation.py:50-56 | A concept is in the belief map if and only if some belief has its id and it is the first concept with that id; the last such belief stands for it |
| SupportGraph.AcyclicHasOrder | rationalevault/cognitive_head/propagation.py:31-48 | Every acyclic graph has a topological order |
| Beliefs.MapBeliefs | rationalevault/cognitive_head/propagation.py:50-56 | The belief map: for each belief the first concept with its id, a later belief replacing an earlier one |
| Beliefs.PropagateInPlace | rationalevault/cognitive_head/propagation.py:68-100 | The traversal that overwrites the objects computes the pass |
| Beliefs.LowerBelief | rationalevault/cognitive_head/propagation.py:83-100 | The innermost body lowers one belief and rebuilds its assessment from the new numbers, all other scores kept |
| Beliefs.LinkDependents | rationalevault/cognitive_head/propagation.py:58-66 | Every concept's belief gets the ids of the beliefs of its targets; numbers and assessments are untouched |
| Beliefs.LinkedExact | rationalevault/cognitive_head/propagation.py:62-66 | The dependents are those it had and those of its targets, sorted, and without repeats if there were none |
| Engine.Reason | rationalevault/cognitive_head/engine.py:21-69 | From the knowledge states: each belief stands for its bundle of the aggregation, with a confidence between 0 and its local one; together the confidences solve the propagation equations of the assessed bundles along the support pairs of all states, or are the local ones if there is a cycle; the contradictions are the pairwise findings of the active knowledge by project, the first of each id |
| Engine.Decide | rationalevault/cognitive_head/engine.py:21-89 | End to end, from knowledge states under the default synthesis configuration: approved and blocked items number the bundles, every decision has impact at most 0.44, priority NORMAL or LOW, at least the policy's confidence and another category than DEFER, and with contradiction blocking only AFFIRM and MONITOR are approved |
| Engine.StateOrderIrrelevant | rationalevault/cognitive_head/engine.py:26-66 | Reasoning about the same states in another order: unless some project has two different states, the same bundles, the same confidences, whatever ids the beliefs share, and the same contradictions, each list in the same order |
| Engine.MergedExact | rationalevault/cognitive_head/engine.py:38-42 | One concept supports another in the merged graph if and only if it does in some state |
| Aggregation.Aggregate | rationalevault/cognitive_head/evidence.py:20-99 | The loops compute the aggregation, which meets the specification of the next row |
| Aggregation.AggregatedExact | rationalevault/cognitive_head/evidence.py:20-99 | The bundles are in strict order of their normalised titles, one for each title of the active knowledge; each is named after the first knowledge with its title by project, lists the memories of all of it sorted and once each, counts its projects once and the mentions of its title in the conflicts, averages its scores, and is as old as the latest update |
| Aggregation.NewestExact | rationalevault/cognitive_head/evidence.py:63-71 | The newest update is the latest of those times that compare with the first one that parses, and there is one if any parses |
| Aggregation.AverageMore | rationalevault/cognitive_head/evidence.py:84 | One more score joins the average with the weight of one, starting from 0 |
| Aggregation.GroupsExact | rationalevault/cognitive_head/evidence.py:24-59 | Each group joins exactly the knowledge with its title, in order, and counts both sides of each conflict |
| Aggregation.StateOrderExact | rationalevault/cognitive_head/evidence.py:25 | Sorting by project gives the same list for every order of the states if and only if no project has two different states |
| Aggregation.SameProjectOrderMatters | rationalevault/cognitive_head/evidence.py:25-33 | For any two states of one project with one piece of knowledge each, about one title and with different ids, swapping the states changes the bundles |
| BeliefIds.ReasonOwnBeliefs | rationalevault/cognitive_head/engine.py:29-45 | Every concept of an aggregation is represented by its own bundle's belief if and only if no two bundles take their concept id from knowledge with one id, and no later title is an earlier one followed by a colon and a start of its content with the rest of that content, past a colon, as its own |
| BeliefIds.SharedIdExact | rationalevault/cognitive_head/belief.py:34-38 | Of two bundles in the order of their titles, the beliefs have one id if and only if the later title splits the earlier content at a colon in that way |
| BeliefIds.OwnConfidences | rationalevault/cognitive_head/engine.py:29-45 | If every concept has its own belief and there is no cycle, the confidences in the list solve the propagation equations that start each concept from the assessment of its own bundle |
| BeliefIds.LongerTitleTakesOver | rationalevault/cognitive_head/engine.py:29-45 | A state with titles "a", "a:b" and "u": the bundles of "a" and "u" have confidence 1 and "a" is the only supporter of "u", yet "u" ends at 0.6 |
| Engine.NoDuplicateFindings | rationalevault/cognitive_head/engine.py:47-66 | Among the records that are compared no id comes twice, so there are no findings about duplicates |
| Engine.PropagateBounded | rationalevault/cognitive_head/propagation.py:68-102 | Propagation only lowers confidences, and not below 0, with or without a cycle |
| Engine.FirstRecordsAre | rationalevault/cognitive_head/engine.py:47-64 | Each record that is compared is the first of its id, and they keep their order |
| AssessmentLaws.LocalMonotone | rationalevault/cognitive_head/assessment.py:32-51 | With weights that are not negative, evidence that is nowhere stronger (base, sources, support) and nowhere less contradicted or fresher gives no higher local confidence |
| AssessmentLaws.EvidenceCounts | rationalevault/cognitive_head/assessment.py:36-51 | Below the caps, from a local confidence that is not cut off, another bundle's differs by exactly the base confidence and each source and supporting memory more at its weight, less each contradiction and day of age more at its weight, cut to [0, 1] |
| AssessmentLaws.CapsHold | rationalevault/cognitive_head/assessment.py:36-48 | Beyond a cap (0.2, 0.2, 1, 0.5) more evidence of the kind changes nothing |
| AssessmentLaws.BaseAlone | rationalevault/cognitive_head/assessment.py:33-51 | With one source, no evidence and no age the local confidence is the base confidence, cut to [0, 1] |
| AssessmentLaws.DefaultWeights | tests/unit/test_belief_construction.py:52-83 | The example of the unit test under the default weights: scores 0.2, 0.1, 0.3 and 0.1, confidence 0.7 |
| AssessmentLaws.ReasonMonotone | rationalevault/cognitive_head/engine.py:29-45 | For the same concepts and texts and the same support pairs, with or without a cycle and whatever ids are shared: nowhere stronger evidence leaves no belief with a higher local or final confidence |
| AssessmentLaws.ConflictsRaiseNothing | rationalevault/cognitive_head/engine.py:21-45 | More conflicts in the queues of any states raise no local or final confidence of `reason` |
| Synthesis.ScoresBounded | rationalevault/cognitive_head/assessment.py:36-51 | Agreement and corroboration scores are in [0, 0.2] and the local confidence in [0, 1], for every bundle and configuration |
| Synthesis.ImpactBounded | rationalevault/cognitive_head/synthesis.py:230-247 | With capped scores the impact under the default weights is between 0 and 0.44 |
| Synthesis.NeverUrgent | rationalevault/cognitive_head/synthesis.py:250-259 | So the priority is always NORMAL or LOW |
| Synthesis.BoundReached | rationalevault/cognitive_head/synthesis.py:230-259 | The bound is reached, with priority NORMAL |
| Synthesis.Synthesize | rationalevault/cognitive_head/synthesis.py:379-427 | The items represent the beliefs one for one, with their final confidences; they are ranked CRITICAL, HIGH, NORMAL, LOW, the more confident first within a priority, and ties as the beliefs came; and they are counted by category and priority |
| Synthesis.SortRanksItems | rationalevault/cognitive_head/synthesis.py:404-408 | That ranking, stated without the sort key: no item is more urgent than one before it, nor more confident at the same urgency; items alike in both keep their order; and the items are a permutation |
| Synthesis.ImpactNear | rationalevault/cognitive_head/synthesis.py:230-247 | The impact is within 1/20000 of corroboration, breadth and agreement at their weights, and 0 or 1 where that sum leaves [0, 1] |
| Synthesis.RoundExact | rationalevault/cognitive_head/synthesis.py:247 | Rounding gives a multiple of 1/10000 at most half a step away, the even one of two |
| Synthesis.CategoryExact | rationalevault/cognitive_head/synthesis.py:285-302 | Each of the five categories if and only if its thresholds and the presence of contradictions say so |
| Synthesis.DefaultThresholds | rationalevault/cognitive_head/synthesis.py:92-102 | Category and priority under the default thresholds, in numbers |
| Synthesis.PriorityExact | rationalevault/cognitive_head/synthesis.py:250-259 | Each priority if and only if impact times confidence lies in its band |
| Synthesis.ReasonsMeaning | rationalevault/cognitive_head/synthesis.py:276-302 | Each reason is given if and only if the number that it stands for says so, the confidence level last |
| Synthesis.Classify | rationalevault/cognitive_head/synthesis.py:262-302 | The category by the thresholds in their order, and exactly the reasons that hold, each once |
| Synthesis.ReasonsUnique | rationalevault/cognitive_head/synthesis.py:276-302 | Only one list of reasons meets that specification |
| Synthesis.RepresentsUnique | rationalevault/cognitive_head/synthesis.py:311-341 | Only one item represents a belief |
| Synthesis.ActiveIdsExact | rationalevault/cognitive_head/synthesis.py:365-376 | The contradiction ids are exactly those of findings that are not suppressed and have a rule among the belief's evidence, sorted, each once |
| Synthesis.CountsAddUp | rationalevault/cognitive_head/synthesis.py:410-422 | The counts by category, and those by priority, add up to the number of items |
| DecisionGate.Gate | rationalevault/cognitive_head/decision.py:156-219 | The gate decides on the first items that pass, up to a positive cap, in order, and each decision says field by field what its item says; the others are blocked, failing items first; the counts add up |
| DecisionGate.GatePartition | rationalevault/cognitive_head/decision.py:167-197 | Approved and blocked items are a permutation of the synthesis items |
| DecisionGate.ApprovedExact | rationalevault/cognitive_head/decision.py:191-197 | A passing item is approved exactly if fewer items than the cap pass before it, at the place given by their number |
| DecisionGate.ApprovedAreTop | rationalevault/cognitive_head/decision.py:163-166 | No passing item that the cap cuts off is more urgent than an approved one, nor more confident at the same urgency |
| DecisionGate.PassesExact | rationalevault/cognitive_head/decision.py:138-153 | With contradiction blocking exactly the AFFIRM and MONITOR items of sufficient confidence pass, without it all of sufficient confidence but DEFER |
| Embedding.EmbeddingBuilder.Build | rationalevault/embedding/builder.py:49-106 | One build: new cache, vectors and specification as the build function says; what it returns is the one dict of vectors that the builder has and later builds change; misses = rebuilt = stale nodes, hits + misses = total; invalidation exactly on a change of provider, model or version |
| Embedding.BuildsFresh | rationalevault/embedding/builder.py:49-106 | After any sequence of builds every node of the last state has the fresh embedding of its text, cache and vector keys coincide, and every entry carries the last provider, model and version |
| Embedding.BuildAt | rationalevault/embedding/builder.py:69-104 | For each node: rebuilt from this state if its entry is missing or different, otherwise kept |
| Embedding.BuildTwice | rationalevault/embedding/builder.py:90-91 | A second build of the same state embeds nothing and changes nothing |
| Embedding.BuiltKeys | rationalevault/embedding/builder.py:61-67 | Deleted nodes keep their vectors until the specification changes |
| Embedding.InvalidatedExact | rationalevault/embedding/builder.py:54-67 | The vector of a node that is gone survives the next build if and only if provider, model and version are as they were |
| Embedding.OldDimensionSurvives | rationalevault/embedding/state.py:6-8 | After a change of dimension alone a build embeds nothing and every vector of the old dimension stays |
| Governance.Reduce | rationalevault/governance/projection.py:73-140 | If every rule payload parses, the state object ends strictly sorted by (id, version), with exactly the rules of a plain map updated by the events, and the largest sequence; otherwise it raises, with the rules as they were and the sequence advanced over the events before the first that does not parse |
| Governance.ReducedUnique | rationalevault/governance/projection.py:104-106 | That specification determines the state |
| Governance.ReducedByEvents | rationalevault/governance/projection.py:86-106 | From the events: a rule is in the state if and only if the last event about its key sets it, or no event is about it and it was there; it is then as that event says, or as it was; and the sequence is the largest |
| Governance.ParseRuleExact | rationalevault/governance/projection.py:111-140 | A payload parses if and only if it has an id and its enum values are known by name; every field is the payload's or its default |
| Governance.RoundTrip | rationalevault/governance/projection.py:142-216 | deserialize(serialize(s)) = s for a sorted state, in whatever order sets are listed |
| Governance.ReduceSplit | rationalevault/governance/projection.py:73-216 | reduce(A + B) = reduce(B, deserialize(serialize(reduce(A)))), sequence included; and A + B parses if and only if A and B do |
| Governance.SequenceIsLargest | rationalevault/governance/projection.py:102 | The sequence is the largest of the initial one and those of the events |
| Governance.Deserialize | rationalevault/governance/projection.py:174-216 | The loop parses every row or fails at an invalid enum value, and sorts stably |
| Governance.SortedKeys | rationalevault/governance/projection.py:104-105 | The keys come out sorted, each once, in whatever order the dict has them |
| Contradictions.Detect | rationalevault/knowledge/contradiction.py:45-135 | The findings about duplicates, then those about all pairs in index order |
| Contradictions.FindingsPermuted | rationalevault/knowledge/contradiction.py:69-133 | The multiset of (id, type, severity, suppressed) of the pairwise findings is the same for every permutation of the records |
| Contradictions.PairSymmetric | rationalevault/knowledge/contradiction.py:33-38 | A pair has the same findings in either order |
| Contradictions.PairConfigs | rationalevault/knowledge/contradiction.py:90-108 | A pair has exactly one exclusive-config finding for each shared key with differing values, and no other |
| Contradictions.ConfigFindingsOfAll | rationalevault/knowledge/contradiction.py:69-108 | An exclusive-config finding is reported exactly as often as there are pairs i < j of records with a shared key of differing values behind it |
| ContradictionKinds.PairSettings | rationalevault/knowledge/contradiction.py:78-108 | A pair has the exclusive-config finding of a key, once, if and only if the last lines that set the key in the two texts set it to different values |
| ContradictionKinds.SettingsExact | rationalevault/knowledge/contradiction.py:79-91 | The settings of a text: each key as the last line sets it that has the key before its first '=', or before its first ':' if it has no '=' |
| ContradictionKinds.PairAssertions | rationalevault/knowledge/contradiction.py:110-133 | A pair has the opposite-assertion finding of each of the five keywords that occurs in both texts, once for each of the six pairs of opposed words of which one text has one and the other the other |
| ContradictionKinds.AssertionsReported | rationalevault/knowledge/contradiction.py:69-133 | Over all records, an opposite assertion is reported if and only if some pair of positions has the keyword and opposed words |
| ContradictionKinds.DuplicatesExact | rationalevault/knowledge/contradiction.py:50-67 | A conflicting duplicate is reported of an id exactly as often as a record has another title or content than the first record of that id |
| Canonical.CanonIdempotent | rationalevault/canonical/canonicalizer.py:11-30 | Canonicalising twice is canonicalising once, for an idempotent string normaliser (NFC, section 1.2 of Unicode Standard Annex #15) |
| Canonical.CanonAscending | rationalevault/canonical/canonicalizer.py:24 | In a canonical form the keys of every dict, at any depth, are strictly ascending |
| Canonical.CanonExact | rationalevault/canonical/canonicalizer.py:11-30 | Two values have the same canonical form, key order included, if and only if they differ only in dict order, at any depth, and in the normalisation of strings |
| Canonical.SortThenCanon | rationalevault/canonical/canonicalizer.py:24 | Sorting the keys first and canonicalising the values first give the same dict |
| Orders.StableSortCorrect | rationalevault/cognitive_head/replay_engine.py:260-261 | The sort is sorted and keeps each band of equal priority in its order |
| Orders.StableArrangementUnique | rationalevault/cognitive_head/replay_engine.py:260-261 | No other arrangement does both |
| Orders.SortOfSet | rationalevault/cognitive_head/propagation.py:37 | Sorting a duplicate-free list depends on its elements only, so the iteration order of sets does not matter |
| Orders.StrLeExact | rationalevault/canonical/canonicalizer.py:24 | The order on strings: a prefix first, otherwise by the first character in which they differ |

## Left out

- Wall-clock fields: `compiled_at` is not part of a head, and the time of an event is an opaque value.
- SHA-256 and JSON text: digests are injective (the eight-digit truncation of ids included), and stored rows come back as they were.
- Joined texts under other digests: only belief ids are modelled as the text that is hashed. Finding ids (rationalevault/knowledge/contradiction.py:34-37) and the ids of synthesis items and decisions are injective datatypes here, while the code joins their parts with colons, so findings about different pairs of ids that contain colons can share one text and be suppressed together.
- Malformed payloads: TASK_CREATED has its details, and TASK_MUTATED assigns values of the declared type to declared fields; so the deserialization failure of a snapshot load does not occur either.
- Aliasing of lists other than progress notes: tags, id lists and categories are values. Nothing here changes such a list in place, so sharing one would not show.
- Event payloads in which one list object occurs twice, which JSON text does not give: the reducers require every list to be in one place of one payload.
- ReduceDelta: says nothing of a shared object whose item an event of the delta makes again, which keeps what it held by then, nor of all but the last of several objects with one id.
- EqualSequenceEqualSnapshot: is about the rows without `compiled_at`, which differs between two saves at one sequence and is no part of a head here; two rows at sequence 0 may differ in the fields of the project, which full replay sets anew.
- Detect: leaves out the evidence text and the suggested status of a finding, which is always the same; `Engine` renders finding ids through a parameter.
- The dimension `projection_name` of the snapshot table, which is always "cognitive_head" here.
- Concurrency: a compile is one atomic step, although it reads the stream and the latest sequence separately; SQL, connections, write-ahead logging and the Postgres store are not modelled.
- Floating point: confidences, impacts and the rounding to four digits are exact over the reals.
- Text normalisation: lower-casing, stripping, splitting into words and lines and NFC are parameters of the model, except that the keys and values of settings are stripped of blanks, tabs and line ends only; so are the parsing of times and the clock, which is read once for each bundle.
- Provenance and creation times of bundles, which nothing in the pipeline reads, and the reasoning report's summary.
- The platform's registry, dependencies (the cognitive head has none) and telemetry; a restored head is the payload's, and compiled heads are not serialised for output.
- Foreign code: the embedding provider is a function of one text; FAISS, sentence-transformers and numpy are not modelled.
- BuildsFresh: assumes that a content hash determines the text, which the builder itself does not check.
- ReplayedEventsBound: assumes that the earlier compile's save succeeded, since a failed save leaves any lag, and a store that returns payloads with their hash, since without it every replay is full.
- Retrieval, context compilation, rendering, the command line, evaluation metrics and certification: plumbing, or shallow field comparisons that would only add easy members.
