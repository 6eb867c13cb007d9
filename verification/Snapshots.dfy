/** Snapshot payloads: reducer state as rows of JSON values, and the integrity hash. */
module Snapshots {
  import opened Wrappers
  import opened OrderedMaps
  import opened Folds
  import opened Heads

  datatype Json = JNull | JStr(s: string) | JList(items: seq<string>) | JNotes(notes: seq<Note>)

  datatype Column =
    | TaskId | DecisionId | QuestionId | Title | Description | Status | Assignee | Priority | Tags | BlockedBy
    | CreatedAt | UpdatedAt | CompletedAt | CreatedBy | ProgressNotes | RelatedKnowledgeIds
    | Rationale | Context | Category | SupersededBy | AcceptedAt
    | Resolution | BlocksTaskIds | RaisedAt | ResolvedAt | RaisedBy

  /** The JSON object of one task, decision or question. */
  type Row = map<Column, Json>

  // ----- Reading a field with a default, at each type

  function GetStr(r: Row, f: Column, default: string): string {
    if f in r && r[f].JStr? then r[f].s else default
  }

  function GetOpt(r: Row, f: Column): Option<string> {
    if f in r && r[f].JStr? then Some(r[f].s) else None
  }

  function GetList(r: Row, f: Column): seq<string> {
    if f in r && r[f].JList? then r[f].items else []
  }

  function GetNotes(r: Row, f: Column): seq<Note> {
    if f in r && r[f].JNotes? then r[f].notes else []
  }

  function OptJson(o: Option<string>): Json {
    if o.Some? then JStr(o.value) else JNull
  }

  // ----- Rows written by the compiler and read back by the replay engine

  function TaskRow(t: Task): Row {
    map[TaskId := JStr(t.taskId), Title := JStr(t.title), Description := JStr(t.description),
        Status := JStr(t.status), Assignee := OptJson(t.assignee), Priority := JStr(t.priority),
        Tags := JList(t.tags), BlockedBy := JList(t.blockedBy),
        CreatedAt := OptJson(t.createdAt), UpdatedAt := OptJson(t.updatedAt), CompletedAt := OptJson(t.completedAt),
        CreatedBy := JStr(t.createdBy), ProgressNotes := JNotes(t.progressNotes),
        RelatedKnowledgeIds := JList(t.relatedKnowledgeIds)]
  }

  function RowTask(r: Row): Task {
    Task(GetStr(r, TaskId, ""), GetStr(r, Title, ""), GetStr(r, Description, ""), GetStr(r, Status, "open"),
         GetOpt(r, Assignee), GetStr(r, Priority, "normal"), GetList(r, Tags), GetList(r, BlockedBy),
         GetOpt(r, CreatedAt), GetOpt(r, UpdatedAt), GetOpt(r, CompletedAt), GetStr(r, CreatedBy, ""),
         GetNotes(r, ProgressNotes), GetList(r, RelatedKnowledgeIds))
  }

  function DecisionRow(d: Decision): Row {
    map[DecisionId := JStr(d.decisionId), Title := JStr(d.title), Description := JStr(d.description),
        Status := JStr(d.status), Rationale := JStr(d.rationale), Context := JStr(d.context),
        Category := JStr(d.category), SupersededBy := OptJson(d.supersededBy),
        CreatedAt := OptJson(d.createdAt), AcceptedAt := OptJson(d.acceptedAt), CreatedBy := JStr(d.createdBy)]
  }

  function RowDecision(r: Row): Decision {
    Decision(GetStr(r, DecisionId, ""), GetStr(r, Title, ""), GetStr(r, Description, ""),
             GetStr(r, Status, "proposed"), GetStr(r, Rationale, ""), GetStr(r, Context, ""),
             GetStr(r, Category, "general"), GetOpt(r, SupersededBy), GetOpt(r, CreatedAt),
             GetOpt(r, AcceptedAt), GetStr(r, CreatedBy, ""))
  }

  function QuestionRow(q: Question): Row {
    map[QuestionId := JStr(q.questionId), Title := JStr(q.title), Description := JStr(q.description),
        Status := JStr(q.status), Priority := JStr(q.priority), Resolution := OptJson(q.resolution),
        BlocksTaskIds := JList(q.blocksTaskIds), RaisedAt := OptJson(q.raisedAt),
        ResolvedAt := OptJson(q.resolvedAt), RaisedBy := JStr(q.raisedBy)]
  }

  function RowQuestion(r: Row): Question {
    Question(GetStr(r, QuestionId, ""), GetStr(r, Title, ""), GetStr(r, Description, ""),
             GetStr(r, Status, "open"), GetStr(r, Priority, "normal"), GetOpt(r, Resolution),
             GetList(r, BlocksTaskIds), GetOpt(r, RaisedAt), GetOpt(r, ResolvedAt), GetStr(r, RaisedBy, ""))
  }

  lemma TaskRoundTrip(t: Task)
    ensures RowTask(TaskRow(t)) == t
  {
  }

  lemma DecisionRoundTrip(d: Decision)
    ensures RowDecision(DecisionRow(d)) == d
  {
  }

  lemma QuestionRoundTrip(q: Question)
    ensures RowQuestion(QuestionRow(q)) == q
  {
  }

  // ----- Payloads

  /** Everything the hash covers. */
  datatype Content = Content(
    sequence: int, schemaVersion: int, projectionVersion: int,
    projectId: string, projectName: string, projectGoal: string, currentFocus: string, ledgerVersion: int,
    tasks: OMap<Row>, decisions: OMap<Row>, questions: OMap<Row>, blockers: seq<Blocker>)

  /** SHA-256 as an injective function; NoDigest is the empty string. */
  datatype Digest = NoDigest | Sha256(of: Content)

  datatype Payload = Payload(content: Content, hash: Digest) {
    predicate ValidateHash() { hash == Sha256(content) }

    function WithHash(): Payload { this.(hash := Sha256(content)) }
  }

  const SCHEMA_VERSION := 1
  const PROJECTION_VERSION := 1

  /** `from_cognitive_head`, given the full reducer state */
  function FromHead(h: Head, sequence: int, s: State): Payload {
    Payload(Content(sequence, SCHEMA_VERSION, PROJECTION_VERSION,
                    h.projectId, h.projectName, h.projectGoal, h.currentFocus, h.ledgerVersion,
                    MapValues(s.tasks, TaskRow), MapValues(s.decisions, DecisionRow),
                    MapValues(s.questions, QuestionRow), h.blockers),
            NoDigest).WithHash()
  }

  /** `to_cognitive_head`: every stored item, with no filter and no sort. */
  function ToHead(c: Content): Head {
    Head(c.projectId, c.projectName, c.projectGoal, c.currentFocus, c.ledgerVersion,
         Apply(RowTask, Values(c.tasks)), Apply(RowDecision, Values(c.decisions)),
         Apply(RowQuestion, Values(c.questions)), c.blockers)
  }

  /** The reducer state that the replay engine rebuilds for delta replay. */
  function Rebuild(c: Content): State {
    State(Project(c.projectName, c.projectGoal, c.currentFocus, None, ""),
          MapValues(c.tasks, RowTask), MapValues(c.decisions, RowDecision), MapValues(c.questions, RowQuestion))
  }

  /** The rebuilt state is the saved one, but for who created the project and when. */
  lemma RebuildInverse(h: Head, sequence: int, s: State)
    ensures var r := Rebuild(FromHead(h, sequence, s).content);
            r.tasks == s.tasks && r.decisions == s.decisions && r.questions == s.questions
    ensures FromHead(h, sequence, s).ValidateHash()
  {
    forall t { TaskRoundTrip(t); }
    forall d { DecisionRoundTrip(d); }
    forall q { QuestionRoundTrip(q); }
    MapValuesInverse(s.tasks, TaskRow, RowTask);
    MapValuesInverse(s.decisions, DecisionRow, RowDecision);
    MapValuesInverse(s.questions, QuestionRow, RowQuestion);
  }

  lemma {:induction false} RowsInverse<V, W>(keys: seq<string>, at: map<string, V>, f: V -> W, g: W -> V)
    requires forall v :: g(f(v)) == v
    ensures Apply(g, Select(keys, map k | k in at :: f(at[k]))) == Select(keys, at)
  {
    if keys != [] {
      var n := |keys| - 1;
      var rows := map k | k in at :: f(at[k]);
      RowsInverse(keys[..n], at, f, g);
      if keys[n] in at {
        var xs := Select(keys[..n], rows);
        assert (xs + [rows[keys[n]]])[..|xs|] == xs;
      } else {
        assert Select(keys, rows) == Select(keys[..n], rows);
      }
    }
  }

  /** The head a snapshot is turned into on the fast path. */
  function UnfilteredHead(projectId: string, s: State, ledgerVersion: int): Head {
    HeadOf(projectId, s, ledgerVersion)
      .(activeTasks := Values(s.tasks), activeDecisions := Values(s.decisions), openQuestions := Values(s.questions))
  }

  lemma ToHeadInverse(projectId: string, s: State, sequence: int, version: int)
    ensures ToHead(FromHead(HeadOf(projectId, s, version), sequence, s).content) == UnfilteredHead(projectId, s, version)
  {
    forall t { TaskRoundTrip(t); }
    forall d { DecisionRoundTrip(d); }
    forall q { QuestionRoundTrip(q); }
    RowsInverse(s.tasks.keys, s.tasks.at, TaskRow, RowTask);
    RowsInverse(s.decisions.keys, s.decisions.at, DecisionRow, RowDecision);
    RowsInverse(s.questions.keys, s.questions.at, QuestionRow, RowQuestion);
  }
}
