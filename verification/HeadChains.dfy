/**
 Deltas replayed from head to head by repeated calls of `reduce`, each on the head that the call
 before it returned: the incrementality that the platform asks of every projection. Whatever a head
 loses stays lost for the heads after it.
 */
module HeadChains {
  import opened OrderedMaps
  import opened Folds
  import opened Heads
  import opened HeadReduction
  import opened DeltaFromHead
  import opened Ledger
  import opened Replay
  import Vault

  /** All the events of the deltas. */
  function Flat(ds: seq<seq<Event>>): seq<Event> {
    if ds == [] then []
    else
      var n := |ds| - 1;
      Flat(ds[..n]) + ds[n]
  }

  /** The head after reducing the deltas one after the other, each from the head before it. */
  function Chain(h: Head, ds: seq<seq<Event>>): Head {
    if ds == [] then h
    else
      var n := |ds| - 1;
      ReduceFrom(Chain(h, ds[..n]), ds[n])
  }

  lemma {:induction false} FlatFrom(ds: seq<seq<Event>>, i: nat)
    requires i < |ds|
    ensures Flat(ds[i..]) == Flat(ds[i..][..|ds| - 1 - i]) + ds[|ds| - 1]
    ensures ds[i..][..|ds| - 1 - i] == ds[..|ds| - 1][i..]
  {
  }

  lemma {:induction false} FlatSplit(ds: seq<seq<Event>>, i: nat)
    requires i <= |ds|
    ensures Flat(ds) == Flat(ds[..i]) + Flat(ds[i..])
  {
    if i == |ds| {
      assert ds[..i] == ds && ds[i..] == [];
    } else {
      var n := |ds| - 1;
      FlatSplit(ds[..n], i);
      FlatFrom(ds, i);
      assert ds[..n][..i] == ds[..i];
    }
  }

  // ----- What is behind the head of a chain

  /** The reducer state that a head shows part of. */
  function Shown(s: State): State {
    StateFrom(HeadOf("", s, 0))
  }

  /** The state from which the last head of the chain was built. */
  function Behind(s: State, ds: seq<seq<Event>>): State {
    if ds == [] then s
    else
      var n := |ds| - 1;
      var b := Behind(s, ds[..n]);
      if ds[n] == [] then b else Reduce(Shown(b), ds[n])
  }

  /** The events from which the last head of the chain took its version. */
  function LastEvents(base: seq<Event>, ds: seq<seq<Event>>): (r: seq<Event>)
    ensures base != [] ==> r != []
  {
    if ds == [] then base
    else
      var n := |ds| - 1;
      if ds[n] == [] then LastEvents(base, ds[..n]) else ds[n]
  }

  lemma {:induction false} ChainIs(base: seq<Event>, ds: seq<seq<Event>>)
    requires base != [] && Bootstrapped(base)
    ensures var es := LastEvents(base, ds);
            Chain(ReduceFull(base).value, ds) == HeadOf(es[0].project, Behind(Reduce(Initial, base), ds), MaxVersion(es))
  {
    if ds != [] { ChainIs(base, ds[..|ds| - 1]); }
  }

  /** The events that the version comes from end the stream. */
  lemma {:induction false} LastEventsEnd(base: seq<Event>, ds: seq<seq<Event>>)
    requires base != []
    ensures var all, es := base + Flat(ds), LastEvents(base, ds); |es| <= |all| && es == all[|all| - |es|..]
  {
    if ds != [] {
      var n := |ds| - 1;
      LastEventsEnd(base, ds[..n]);
      assert base + Flat(ds) == (base + Flat(ds[..n])) + ds[n];
    }
  }

  // ----- Items that a head has dropped

  /** The task is completed after the first `i` deltas, and no later one creates it. */
  ghost predicate TaskDropped(m: OMap<Task>, ds: seq<seq<Event>>, i: nat, k: string)
    requires i <= |ds|
  {
    var f := FoldTasks(m, Flat(ds[..i]));
    k in f.at && !IsActive(f.at[k]) && !Creates(Flat(ds[i..]), k)
  }

  /** As of one of the deltas, that is: dropped by now, or dropped before and not made again since. */
  ghost predicate TaskEverDropped(m: OMap<Task>, ds: seq<seq<Event>>, k: string) {
    var n, f := |ds| - 1, FoldTasks(m, Flat(ds));
    (k in f.at && !IsActive(f.at[k])) || (ds != [] && TaskEverDropped(m, ds[..n], k) && !Creates(ds[n], k))
  }

  lemma CreatesJoin(a: seq<Event>, b: seq<Event>, k: string)
    ensures Creates(a + b, k) <==> Creates(a, k) || Creates(b, k)
  {
    if e :| e in a && e.body.TaskCreated? && e.body.taskId == k { assert e in a + b; }
    if e :| e in b && e.body.TaskCreated? && e.body.taskId == k { assert e in a + b; }
  }

  lemma TaskDroppedStep(m: OMap<Task>, ds: seq<seq<Event>>, i: nat, k: string)
    requires i < |ds|
    ensures var n := |ds| - 1; TaskDropped(m, ds, i, k) <==> TaskDropped(m, ds[..n], i, k) && !Creates(ds[n], k)
  {
    var n := |ds| - 1;
    assert ds[..n][..i] == ds[..i];
    FlatFrom(ds, i);
    CreatesJoin(Flat(ds[..n][i..]), ds[n], k);
  }

  lemma TaskDroppedNow(m: OMap<Task>, ds: seq<seq<Event>>, k: string)
    ensures var f := FoldTasks(m, Flat(ds)); TaskDropped(m, ds, |ds|, k) <==> k in f.at && !IsActive(f.at[k])
  {
    assert ds[..|ds|] == ds && ds[|ds|..] == [];
  }

  lemma {:induction false} TaskDroppedEver(m: OMap<Task>, ds: seq<seq<Event>>, i: nat, k: string)
    requires i <= |ds| && TaskDropped(m, ds, i, k)
    ensures TaskEverDropped(m, ds, k)
  {
    if i == |ds| {
      TaskDroppedNow(m, ds, k);
    } else {
      TaskDroppedStep(m, ds, i, k);
      TaskDroppedEver(m, ds[..|ds| - 1], i, k);
    }
  }

  lemma {:induction false} TaskEverDroppedAt(m: OMap<Task>, ds: seq<seq<Event>>, k: string) returns (i: nat)
    requires TaskEverDropped(m, ds, k)
    ensures i <= |ds| && TaskDropped(m, ds, i, k)
  {
    var f := FoldTasks(m, Flat(ds));
    if k in f.at && !IsActive(f.at[k]) {
      i := |ds|;
      TaskDroppedNow(m, ds, k);
    } else {
      i := TaskEverDroppedAt(m, ds[..|ds| - 1], k);
      TaskDroppedStep(m, ds, i, k);
    }
  }

  /** The decision is not accepted after the first `i` deltas, and no later one proposes it. */
  ghost predicate DecisionDropped(m: OMap<Decision>, ds: seq<seq<Event>>, i: nat, k: string)
    requires i <= |ds|
  {
    var f := FoldDecisions(m, Flat(ds[..i]));
    k in f.at && !IsAccepted(f.at[k]) && !Proposes(Flat(ds[i..]), k)
  }

  /** As of one of the deltas, that is: dropped by now, or dropped before and not made again since. */
  ghost predicate DecisionEverDropped(m: OMap<Decision>, ds: seq<seq<Event>>, k: string) {
    var n, f := |ds| - 1, FoldDecisions(m, Flat(ds));
    (k in f.at && !IsAccepted(f.at[k])) || (ds != [] && DecisionEverDropped(m, ds[..n], k) && !Proposes(ds[n], k))
  }

  lemma ProposesJoin(a: seq<Event>, b: seq<Event>, k: string)
    ensures Proposes(a + b, k) <==> Proposes(a, k) || Proposes(b, k)
  {
    if e :| e in a && e.body.DecisionProposed? && e.body.decisionId == k { assert e in a + b; }
    if e :| e in b && e.body.DecisionProposed? && e.body.decisionId == k { assert e in a + b; }
  }

  lemma DecisionDroppedStep(m: OMap<Decision>, ds: seq<seq<Event>>, i: nat, k: string)
    requires i < |ds|
    ensures var n := |ds| - 1; DecisionDropped(m, ds, i, k) <==> DecisionDropped(m, ds[..n], i, k) && !Proposes(ds[n], k)
  {
    var n := |ds| - 1;
    assert ds[..n][..i] == ds[..i];
    FlatFrom(ds, i);
    ProposesJoin(Flat(ds[..n][i..]), ds[n], k);
  }

  lemma DecisionDroppedNow(m: OMap<Decision>, ds: seq<seq<Event>>, k: string)
    ensures var f := FoldDecisions(m, Flat(ds)); DecisionDropped(m, ds, |ds|, k) <==> k in f.at && !IsAccepted(f.at[k])
  {
    assert ds[..|ds|] == ds && ds[|ds|..] == [];
  }

  lemma {:induction false} DecisionDroppedEver(m: OMap<Decision>, ds: seq<seq<Event>>, i: nat, k: string)
    requires i <= |ds| && DecisionDropped(m, ds, i, k)
    ensures DecisionEverDropped(m, ds, k)
  {
    if i == |ds| {
      DecisionDroppedNow(m, ds, k);
    } else {
      DecisionDroppedStep(m, ds, i, k);
      DecisionDroppedEver(m, ds[..|ds| - 1], i, k);
    }
  }

  lemma {:induction false} DecisionEverDroppedAt(m: OMap<Decision>, ds: seq<seq<Event>>, k: string) returns (i: nat)
    requires DecisionEverDropped(m, ds, k)
    ensures i <= |ds| && DecisionDropped(m, ds, i, k)
  {
    var f := FoldDecisions(m, Flat(ds));
    if k in f.at && !IsAccepted(f.at[k]) {
      i := |ds|;
      DecisionDroppedNow(m, ds, k);
    } else {
      i := DecisionEverDroppedAt(m, ds[..|ds| - 1], k);
      DecisionDroppedStep(m, ds, i, k);
    }
  }

  // ----- The state behind a chain's head against the state of full replay

  lemma ShownKeyed(s: State)
    requires Keyed(s)
    ensures Keyed(Shown(s))
  {
    TasksOfHead(s.tasks);
    DecisionsOfHead(s.decisions);
    QuestionsOfHead(s.questions);
  }

  /** One delta more, on the state behind the head and on the state of full replay. */
  lemma OneMore(s: State, ds: seq<seq<Event>>)
    requires ds != []
    ensures var n := |ds| - 1;
            var b, f, x, y := Behind(s, ds[..n]), Reduce(s, Flat(ds[..n])), Behind(s, ds), Reduce(s, Flat(ds));
            && (ds[n] == [] ==> x == b && y == f)
            && (ds[n] != [] ==> x == Reduce(Shown(b), ds[n]) && y == Reduce(f, ds[n]))
  {
    ReduceSplit(s, Flat(ds[..|ds| - 1]), ds[|ds| - 1]);
  }

  lemma {:induction false} ChainKeyed(s: State, ds: seq<seq<Event>>)
    requires Keyed(s)
    ensures Keyed(Behind(s, ds)) && Keyed(Reduce(s, Flat(ds)))
  {
    ReduceKeyed(s, Flat(ds));
    if ds != [] {
      var n := |ds| - 1;
      ChainKeyed(s, ds[..n]);
      ShownKeyed(Behind(s, ds[..n]));
      ReduceKeyed(Shown(Behind(s, ds[..n])), ds[n]);
    }
  }

  lemma QuestionsStep(b: OMap<Question>, f: OMap<Question>, d: seq<Event>)
    requires KeyedQuestions(b) && Opens(b) == Opens(f)
    ensures Opens(FoldQuestions(QuestionsFrom(SelectQuestions(Values(b))), d)) == Opens(FoldQuestions(f, d))
  {
    QuestionsOfHead(b);
    var part := QuestionsFrom(SelectQuestions(Values(b)));
    forall k ensures k in part.at ==> k in f.at && f.at[k] == part.at[k] {
      assert k in Opens(b) <==> k in Opens(f);
      if k in part.at { assert part.at[k] == Opens(b)[k]; }
    }
    forall k | k in f.at && k !in part.at ensures !IsOpen(f.at[k]) {
      assert k in Opens(b) <==> k in Opens(f);
    }
    SameOpens(part, f, d);
  }

  lemma SameOpens(part: OMap<Question>, whole: OMap<Question>, d: seq<Event>)
    requires LacksOnlyResolved(part, whole)
    ensures Opens(FoldQuestions(part, d)) == Opens(FoldQuestions(whole, d))
  {
    QuestionsStayWithin(part, whole, d);
  }

  /** The project's fields and the open questions are those of full replay all along. */
  lemma {:induction false} ChainQuestions(s: State, ds: seq<seq<Event>>)
    requires Keyed(s)
    ensures var b, f := Behind(s, ds), Reduce(s, Flat(ds));
            Opens(b.questions) == Opens(f.questions) && Vault.SameHeadFields(b.project, f.project)
  {
    if ds != [] {
      var n := |ds| - 1;
      ChainQuestions(s, ds[..n]);
      ChainKeyed(s, ds[..n]);
      OneMore(s, ds);
      var b, f := Behind(s, ds[..n]), Reduce(s, Flat(ds[..n]));
      QuestionsStep(b.questions, f.questions, ds[n]);
      Vault.ProjectFoldAgrees(Shown(b).project, f.project, ds[n]);
    }
  }

  /** One more delta: what the head shows of the tasks, and what it has dropped. */
  lemma TaskStep(b: OMap<Task>, f: OMap<Task>, d: seq<Event>, k: string)
    requires KeyedTasks(b) && "" !in f.at && forall l | l in Actives(b) :: l in f.at && f.at[l] == Actives(b)[l]
    ensures var x, y := Actives(FoldTasks(TasksFrom(SelectTasks(Values(b))), d)), FoldTasks(f, d);
            && (k in x ==> k in y.at && y.at[k] == x[k])
            && (k in y.at ==> (k !in x <==> !IsActive(y.at[k]) || (k in f.at && k !in Actives(b) && !Creates(d, k))))
            && (k in y.at && !Creates(d, k) ==> k in f.at)
  {
    TasksOfHead(b);
    TasksStayWithin(TasksFrom(SelectTasks(Values(b))), f, d);
    NoEmptyTask(f, d);
    if !Creates(d, k) && k != "" { StatusAfterDelta(f, d, k); }
  }

  /** A task of full replay is missing from the head, or completed, exactly if it has ever been dropped. */
  lemma {:induction false} ChainTask(s: State, ds: seq<seq<Event>>, k: string)
    requires Keyed(s) && "" !in s.tasks.at
    ensures var b, f := Actives(Behind(s, ds).tasks), Reduce(s, Flat(ds)).tasks;
            && (k in b ==> k in f.at && f.at[k] == b[k])
            && (k in f.at ==> (k !in b <==> TaskEverDropped(s.tasks, ds, k)))
  {
    if ds == [] {
      assert Flat(ds) == [];
    } else {
      var n := |ds| - 1;
      var b, f := Behind(s, ds[..n]), Reduce(s, Flat(ds[..n]));
      forall l ensures l in Actives(b.tasks) ==> l in f.tasks.at && f.tasks.at[l] == Actives(b.tasks)[l] {
        ChainTask(s, ds[..n], l);
      }
      ChainTask(s, ds[..n], k);
      ChainKeyed(s, ds[..n]);
      OneMore(s, ds);
      NoEmptyTask(s.tasks, Flat(ds[..n]));
      if ds[n] != [] { TaskStep(b.tasks, f.tasks, ds[n], k); }
    }
  }

  /** One more delta: what the head shows of the decisions, and what it has dropped. */
  lemma DecisionStep(b: OMap<Decision>, f: OMap<Decision>, d: seq<Event>, k: string)
    requires KeyedDecisions(b) && "" !in f.at && forall l | l in Accepteds(b) :: l in f.at && f.at[l] == Accepteds(b)[l]
    ensures var x, y := Accepteds(FoldDecisions(DecisionsFrom(SelectDecisions(Values(b))), d)), FoldDecisions(f, d);
            && (k in x ==> k in y.at && y.at[k] == x[k])
            && (k in y.at ==> (k !in x <==> !IsAccepted(y.at[k]) || (k in f.at && k !in Accepteds(b) && !Proposes(d, k))))
            && (k in y.at && !Proposes(d, k) ==> k in f.at)
  {
    DecisionsOfHead(b);
    DecisionsStayWithin(DecisionsFrom(SelectDecisions(Values(b))), f, d);
    NoEmptyDecision(f, d);
    if !Proposes(d, k) && k != "" { VerdictAfterDelta(f, d, k); }
  }

  /** A decision of full replay is missing from the head, or not accepted, exactly if it has ever been dropped. */
  lemma {:induction false} ChainDecision(s: State, ds: seq<seq<Event>>, k: string)
    requires Keyed(s) && "" !in s.decisions.at
    ensures var b, f := Accepteds(Behind(s, ds).decisions), Reduce(s, Flat(ds)).decisions;
            && (k in b ==> k in f.at && f.at[k] == b[k])
            && (k in f.at ==> (k !in b <==> DecisionEverDropped(s.decisions, ds, k)))
  {
    if ds == [] {
      assert Flat(ds) == [];
    } else {
      var n := |ds| - 1;
      var b, f := Behind(s, ds[..n]), Reduce(s, Flat(ds[..n]));
      forall l ensures l in Accepteds(b.decisions) ==> l in f.decisions.at && f.decisions.at[l] == Accepteds(b.decisions)[l] {
        ChainDecision(s, ds[..n], l);
      }
      ChainDecision(s, ds[..n], k);
      ChainKeyed(s, ds[..n]);
      OneMore(s, ds);
      NoEmptyDecision(s.decisions, Flat(ds[..n]));
      if ds[n] != [] { DecisionStep(b.decisions, f.decisions, ds[n], k); }
    }
  }

  // ----- In terms of the events

  /** Some boundary between deltas cuts a completed task from the events that revive it. */
  ghost predicate RevivedAcross(m: OMap<Task>, ds: seq<seq<Event>>, k: string) {
    exists i: nat | i <= |ds| :: RevivedAt(m, ds, i, k)
  }

  ghost predicate RevivedAt(m: OMap<Task>, ds: seq<seq<Event>>, i: nat, k: string)
    requires i <= |ds|
  {
    Revives(FoldTasks(m, Flat(ds[..i])), Flat(ds[i..]), k)
  }

  /** Some boundary between deltas cuts a known decision from the event that accepts it. */
  ghost predicate AcceptedAcross(m: OMap<Decision>, ds: seq<seq<Event>>, k: string) {
    exists i: nat | i <= |ds| :: AcceptedInDelta(m, ds, i, k)
  }

  ghost predicate AcceptedInDelta(m: OMap<Decision>, ds: seq<seq<Event>>, i: nat, k: string)
    requires i <= |ds|
  {
    AcceptsMissing(FoldDecisions(m, Flat(ds[..i])), Flat(ds[i..]), k)
  }

  lemma RevivedIsDropped(m: OMap<Task>, ds: seq<seq<Event>>, i: nat, k: string)
    requires i <= |ds| && "" !in m.at
    ensures var f := FoldTasks(m, Flat(ds));
            RevivedAt(m, ds, i, k) <==> TaskDropped(m, ds, i, k) && k in f.at && IsActive(f.at[k])
  {
    FlatSplit(ds, i);
    FoldSplit(StepTasks, m, Flat(ds[..i]), Flat(ds[i..]));
    NoEmptyTask(m, Flat(ds[..i]));
    if k != "" && !Creates(Flat(ds[i..]), k) { StatusAfterDelta(FoldTasks(m, Flat(ds[..i])), Flat(ds[i..]), k); }
  }

  lemma AcceptedIsDropped(m: OMap<Decision>, ds: seq<seq<Event>>, i: nat, k: string)
    requires i <= |ds| && "" !in m.at
    ensures var f := FoldDecisions(m, Flat(ds));
            AcceptedInDelta(m, ds, i, k) <==> DecisionDropped(m, ds, i, k) && k in f.at && IsAccepted(f.at[k])
  {
    FlatSplit(ds, i);
    FoldSplit(StepDecisions, m, Flat(ds[..i]), Flat(ds[i..]));
    NoEmptyDecision(m, Flat(ds[..i]));
    if k != "" && !Proposes(Flat(ds[i..]), k) { VerdictAfterDelta(FoldDecisions(m, Flat(ds[..i])), Flat(ds[i..]), k); }
  }

  lemma ChainTasksExact(s: State, ds: seq<seq<Event>>)
    requires Keyed(s) && "" !in s.tasks.at
    ensures Actives(Behind(s, ds).tasks) == Actives(Reduce(s, Flat(ds)).tasks) <==> forall k :: !RevivedAcross(s.tasks, ds, k)
  {
    var b, f := Actives(Behind(s, ds).tasks), Actives(Reduce(s, Flat(ds)).tasks);
    forall k ensures (k in b ==> k in f && f[k] == b[k]) && (k in f && k !in b <==> RevivedAcross(s.tasks, ds, k)) {
      ChainTask(s, ds, k);
      if TaskEverDropped(s.tasks, ds, k) {
        var i := TaskEverDroppedAt(s.tasks, ds, k);
        RevivedIsDropped(s.tasks, ds, i, k);
      }
      if RevivedAcross(s.tasks, ds, k) {
        var i: nat :| i <= |ds| && RevivedAt(s.tasks, ds, i, k);
        RevivedIsDropped(s.tasks, ds, i, k);
        TaskDroppedEver(s.tasks, ds, i, k);
      }
    }
    if forall k :: !RevivedAcross(s.tasks, ds, k) {
      assert b == f;
    }
  }

  lemma ChainDecisionsExact(s: State, ds: seq<seq<Event>>)
    requires Keyed(s) && "" !in s.decisions.at
    ensures Accepteds(Behind(s, ds).decisions) == Accepteds(Reduce(s, Flat(ds)).decisions) <==>
            forall k :: !AcceptedAcross(s.decisions, ds, k)
  {
    var b, f := Accepteds(Behind(s, ds).decisions), Accepteds(Reduce(s, Flat(ds)).decisions);
    forall k ensures (k in b ==> k in f && f[k] == b[k]) && (k in f && k !in b <==> AcceptedAcross(s.decisions, ds, k)) {
      ChainDecision(s, ds, k);
      if DecisionEverDropped(s.decisions, ds, k) {
        var i := DecisionEverDroppedAt(s.decisions, ds, k);
        AcceptedIsDropped(s.decisions, ds, i, k);
      }
      if AcceptedAcross(s.decisions, ds, k) {
        var i: nat :| i <= |ds| && AcceptedInDelta(s.decisions, ds, i, k);
        AcceptedIsDropped(s.decisions, ds, i, k);
        DecisionDroppedEver(s.decisions, ds, i, k);
      }
    }
    if forall k :: !AcceptedAcross(s.decisions, ds, k) {
      assert b == f;
    }
  }

  /** In a stream whose versions count its events, the last delta carries the version of the stream. */
  lemma ChainVersion(base: seq<Event>, ds: seq<seq<Event>>)
    requires base != [] && Versioned(base + Flat(ds))
    ensures MaxVersion(LastEvents(base, ds)) == MaxVersion(base + Flat(ds))
  {
    var all, es := base + Flat(ds), LastEvents(base, ds);
    LastEventsEnd(base, ds);
    MaxVersionOf(all);
    MaxVersionOfSuffix(all, |all| - |es|);
  }

  /**
   Main theorem on heads: any number of deltas replayed from head to head, against full replay of
   all the events. The project fields and the open questions are the same. The active tasks are
   the same exactly when no boundary cuts a completed task from events that revive it, and the
   accepted decisions exactly when none cuts a known decision from its acceptance. With the active
   tasks their blockers are the same, and with versions that count events the ledger version is.
   */
  lemma ChainExact(base: seq<Event>, ds: seq<seq<Event>>)
    requires base != [] && Bootstrapped(base)
    ensures ReduceFull(base).Some? && ReduceFull(base + Flat(ds)).Some?
    ensures var s := Reduce(Initial, base);
            var viaHeads, full := Chain(ReduceFull(base).value, ds), ReduceFull(base + Flat(ds)).value;
            && viaHeads.projectName == full.projectName && viaHeads.projectGoal == full.projectGoal
            && viaHeads.currentFocus == full.currentFocus
            && SameItems(viaHeads.openQuestions, full.openQuestions)
            && (SameItems(viaHeads.activeTasks, full.activeTasks) <==> forall k :: !RevivedAcross(s.tasks, ds, k))
            && (SameItems(viaHeads.activeDecisions, full.activeDecisions) <==> forall k :: !AcceptedAcross(s.decisions, ds, k))
            && (SameItems(viaHeads.activeTasks, full.activeTasks) ==>
                  SameTaskBlockers(viaHeads.blockers, full.blockers, full.activeTasks))
            && (Versioned(base + Flat(ds)) ==> viaHeads.ledgerVersion == full.ledgerVersion)
  {
    var s := Reduce(Initial, base);
    var b, f := Behind(s, ds), Reduce(s, Flat(ds));
    Vault.BootstrappedMore(base, Flat(ds));
    ReduceSplit(Initial, base, Flat(ds));
    ReduceKeyed(Initial, base);
    NoEmptyTask(Empty(), base);
    NoEmptyDecision(Empty(), base);
    ChainIs(base, ds);
    ChainKeyed(s, ds);
    ChainQuestions(s, ds);
    ChainTasksExact(s, ds);
    ChainDecisionsExact(s, ds);
    SameLists(b, f);
    if Actives(b.tasks) == Actives(f.tasks) { BlockersAgree(b, f); }
    if Versioned(base + Flat(ds)) { ChainVersion(base, ds); }
  }
}
