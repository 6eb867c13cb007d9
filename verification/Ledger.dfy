/** The event table and the snapshot table of the SQLite store, and the queries over them. */
module Ledger {
  import opened Wrappers
  import opened Folds
  import opened Heads
  import opened Snapshots

  datatype SnapshotRow = SnapshotRow(project: string, payload: Payload)

  // ----- Queries over the event table, which is in event_sequence order

  /** `get_project_stream`, after a sequence number. */
  function Stream(events: seq<Event>, project: string, since: int): seq<Event> {
    if events == [] then []
    else
      var n := |events| - 1;
      Stream(events[..n], project, since) +
      if events[n].project == project && events[n].sequence > since then [events[n]] else []
  }

  /** The part of a project's stream that a snapshot taken at `upTo` covers. */
  function Prefix(events: seq<Event>, project: string, upTo: int): seq<Event> {
    if events == [] then []
    else
      var n := |events| - 1;
      Prefix(events[..n], project, upTo) +
      if events[n].project == project && events[n].sequence <= upTo then [events[n]] else []
  }

  function MaxSequence(events: seq<Event>): int {
    if events == [] then 0
    else
      var n := |events| - 1;
      var before := MaxSequence(events[..n]);
      if before < events[n].sequence then events[n].sequence else before
  }

  /** `get_latest_sequence`: the largest sequence number of the project, or 0. */
  function LatestSequence(events: seq<Event>, project: string): int {
    MaxSequence(Stream(events, project, 0))
  }

  /** The row that `append_event` inserts. */
  function NextEvent(events: seq<Event>, project: string, actor: string, recordedAt: Option<string>, body: Body): Event {
    Event(MaxSequence(events) + 1, project, MaxVersion(Stream(events, project, 0)) + 1, actor, recordedAt, body)
  }

  // ----- Queries over the snapshot table

  function Of(snapshots: seq<SnapshotRow>, project: string): seq<SnapshotRow> {
    if snapshots == [] then []
    else
      var n := |snapshots| - 1;
      Of(snapshots[..n], project) + if snapshots[n].project == project then [snapshots[n]] else []
  }

  /** The project's row with the largest sequence. */
  function Latest(rows: seq<SnapshotRow>): SnapshotRow
    requires rows != []
  {
    var n := |rows| - 1;
    if n == 0 then rows[0]
    else
      var before := Latest(rows[..n]);
      if before.payload.content.sequence <= rows[n].payload.content.sequence then rows[n] else before
  }

  function LatestSnapshot(snapshots: seq<SnapshotRow>, project: string): Option<SnapshotRow> {
    var rows := Of(snapshots, project);
    if rows == [] then None else Some(Latest(rows))
  }

  /** The row is one that the deletion removes. */
  predicate Deleted(r: SnapshotRow, project: string, sequence: int) {
    r.project == project && r.payload.content.sequence < sequence
  }

  /** `delete_snapshots_before` */
  function DeleteBefore(snapshots: seq<SnapshotRow>, project: string, sequence: int): seq<SnapshotRow> {
    if snapshots == [] then []
    else
      var n := |snapshots| - 1;
      DeleteBefore(snapshots[..n], project, sequence) + if Deleted(snapshots[n], project, sequence) then [] else [snapshots[n]]
  }

  // ----- The invariant of the event table

  ghost predicate Numbered(events: seq<Event>) {
    forall i | 0 <= i < |events| :: events[i].sequence == i + 1
  }

  ghost predicate Versioned(stream: seq<Event>) {
    forall j | 0 <= j < |stream| :: stream[j].version == j + 1
  }

  /** Sequences count the rows; versions count the rows of each project. */
  ghost predicate LedgerOk(events: seq<Event>) {
    Numbered(events) && forall p :: Versioned(Stream(events, p, 0))
  }

  lemma {:induction false} StreamElements(events: seq<Event>, project: string, since: int)
    ensures forall e :: e in Stream(events, project, since) <==> e in events && e.project == project && e.sequence > since
  {
    if events != [] {
      var n := |events| - 1;
      StreamElements(events[..n], project, since);
      assert events == events[..n] + [events[n]];
    }
  }

  lemma StreamAppend(events: seq<Event>, e: Event, project: string, since: int)
    ensures Stream(events + [e], project, since) ==
            Stream(events, project, since) + if e.project == project && e.sequence > since then [e] else []
  {
    assert (events + [e])[..|events|] == events;
  }

  lemma PrefixAppend(events: seq<Event>, e: Event, project: string, upTo: int)
    ensures Prefix(events + [e], project, upTo) ==
            Prefix(events, project, upTo) + if e.project == project && e.sequence <= upTo then [e] else []
  {
    assert (events + [e])[..|events|] == events;
  }

  lemma {:induction false} MaxSequenceOf(events: seq<Event>)
    requires Numbered(events)
    ensures MaxSequence(events) == |events|
  {
    if events != [] {
      MaxSequenceOf(events[..|events| - 1]);
    }
  }

  lemma {:induction false} MaxVersionOf(stream: seq<Event>)
    requires Versioned(stream)
    ensures MaxVersion(stream) == |stream|
  {
    if stream != [] {
      MaxVersionOf(stream[..|stream| - 1]);
    }
  }

  /** Versions of a part of the stream that ends with the stream: the maximum is the last. */
  lemma {:induction false} MaxVersionOfSuffix(stream: seq<Event>, k: nat)
    requires Versioned(stream) && k < |stream|
    ensures MaxVersion(stream[k..]) == |stream|
    decreases |stream|
  {
    var n := |stream| - 1;
    var s := stream[k..];
    assert s[..|s| - 1] == stream[..n][k..];
    if k < n {
      MaxVersionOfSuffix(stream[..n], k);
    }
  }

  /** Every append keeps the numbering, whichever projects the appends interleave. */
  lemma AppendKeepsLedger(events: seq<Event>, project: string, actor: string, recordedAt: Option<string>, body: Body)
    requires LedgerOk(events)
    ensures LedgerOk(events + [NextEvent(events, project, actor, recordedAt, body)])
    ensures NextEvent(events, project, actor, recordedAt, body) ==
            Event(|events| + 1, project, |Stream(events, project, 0)| + 1, actor, recordedAt, body)
  {
    var e := NextEvent(events, project, actor, recordedAt, body);
    MaxSequenceOf(events);
    assert Versioned(Stream(events, project, 0));
    MaxVersionOf(Stream(events, project, 0));
    forall p ensures Versioned(Stream(events + [e], p, 0)) {
      var before := Stream(events, p, 0);
      assert Versioned(before);
      StreamAppend(events, e, p, 0);
      assert Stream(events + [e], p, 0) == if p == project then before + [e] else before;
    }
  }

  /** The stream splits at any sequence into the covered prefix and what follows it. */
  lemma {:induction false} StreamSplits(events: seq<Event>, project: string, at: int)
    requires Numbered(events) && at >= 0
    ensures Stream(events, project, 0) == Prefix(events, project, at) + Stream(events, project, at)
    ensures at >= |events| ==> Stream(events, project, at) == []
  {
    if events != [] {
      var n := |events| - 1;
      StreamSplits(events[..n], project, at);
      if events[n].sequence <= at {
        assert Stream(events[..n], project, at) == [];
      }
    }
  }

  /** So the largest version in a non-empty delta is the largest in the whole stream. */
  lemma DeltaVersion(events: seq<Event>, project: string, at: int)
    requires LedgerOk(events) && at >= 0 && Stream(events, project, at) != []
    ensures MaxVersion(Stream(events, project, at)) == MaxVersion(Stream(events, project, 0)) == |Stream(events, project, 0)|
  {
    var stream, prefix := Stream(events, project, 0), Prefix(events, project, at);
    StreamSplits(events, project, at);
    assert Versioned(stream);
    assert stream[|prefix|..] == Stream(events, project, at);
    MaxVersionOf(stream);
    MaxVersionOfSuffix(stream, |prefix|);
  }

  lemma {:induction false} LatestSequenceBounds(events: seq<Event>)
    ensures forall e | e in events :: e.sequence <= MaxSequence(events)
    ensures MaxSequence(events) >= 0
    ensures MaxSequence(events) > 0 ==> exists e :: e in events && e.sequence == MaxSequence(events)
  {
    if events != [] {
      var n := |events| - 1;
      LatestSequenceBounds(events[..n]);
      assert events == events[..n] + [events[n]];
    }
  }

  /** Nothing of a project lies after its latest sequence, and the stream ends there. */
  lemma LatestSequenceIsLast(events: seq<Event>, project: string)
    requires Numbered(events)
    ensures var latest := LatestSequence(events, project);
            && 0 <= latest <= |events|
            && (forall s | s >= latest :: Stream(events, project, s) == [])
            && (forall s | 0 <= s < latest :: Stream(events, project, s) != [])
            && (latest > 0 <==> Stream(events, project, 0) != [])
            && Prefix(events, project, latest) == Stream(events, project, 0)
  {
    var stream, latest := Stream(events, project, 0), LatestSequence(events, project);
    LatestSequenceBounds(stream);
    StreamElements(events, project, 0);
    forall s ensures s >= latest ==> Stream(events, project, s) == []
             ensures 0 <= s < latest ==> Stream(events, project, s) != []
    {
      StreamElements(events, project, s);
      var later := Stream(events, project, s);
      assert later != [] ==> later[0] in later;
      assert s >= 0 ==> forall e | e in later :: e in stream;
      if 0 <= s < latest {
        var e :| e in stream && e.sequence == latest;
        assert e in Stream(events, project, s);
      }
    }
    StreamSplits(events, project, latest);
    if stream != [] {
      assert stream[0] in stream;
    }
  }

  lemma {:induction false} OfElements(snapshots: seq<SnapshotRow>, project: string)
    ensures forall r :: r in Of(snapshots, project) <==> r in snapshots && r.project == project
  {
    if snapshots != [] {
      var n := |snapshots| - 1;
      OfElements(snapshots[..n], project);
      assert snapshots == snapshots[..n] + [snapshots[n]];
    }
  }

  lemma {:induction false} LatestIsLargest(rows: seq<SnapshotRow>)
    requires rows != []
    ensures Latest(rows) in rows
    ensures forall r | r in rows :: r.payload.content.sequence <= Latest(rows).payload.content.sequence
  {
    var n := |rows| - 1;
    if n > 0 {
      LatestIsLargest(rows[..n]);
      assert rows == rows[..n] + [rows[n]];
    }
  }

  /** What a query for the latest snapshot promises. */
  lemma LatestSnapshotExact(snapshots: seq<SnapshotRow>, project: string)
    ensures match LatestSnapshot(snapshots, project)
            case None => forall r | r in snapshots :: r.project != project
            case Some(l) =>
              && l in snapshots && l.project == project
              && forall r | r in snapshots && r.project == project :: r.payload.content.sequence <= l.payload.content.sequence
  {
    OfElements(snapshots, project);
    var rows := Of(snapshots, project);
    if rows != [] { LatestIsLargest(rows); }
    forall r | r in snapshots && r.project == project ensures r in rows {}
  }

  /**
   A deletion removes the older rows of the project and keeps every other row, as often as it was.
   */
  lemma {:induction false} DeleteElements(snapshots: seq<SnapshotRow>, project: string, sequence: int)
    ensures forall r: SnapshotRow :: r in DeleteBefore(snapshots, project, sequence) <==>
              r in snapshots && (r.project != project || r.payload.content.sequence >= sequence)
    ensures forall r: SnapshotRow | r.project != project || r.payload.content.sequence >= sequence ::
              multiset(DeleteBefore(snapshots, project, sequence))[r] == multiset(snapshots)[r]
  {
    if snapshots != [] {
      var n := |snapshots| - 1;
      DeleteElements(snapshots[..n], project, sequence);
      assert snapshots == snapshots[..n] + [snapshots[n]];
    }
  }

  /** A row that stays comes after exactly those that stay before it. */
  lemma {:induction false} DeletePlace(snapshots: seq<SnapshotRow>, project: string, sequence: int, i: nat)
    requires i < |snapshots| && !Deleted(snapshots[i], project, sequence)
    ensures var k, kept := |DeleteBefore(snapshots[..i], project, sequence)|, DeleteBefore(snapshots, project, sequence);
            k < |kept| && kept[k] == snapshots[i]
  {
    var n := |snapshots| - 1;
    if i < n {
      DeletePlace(snapshots[..n], project, sequence, i);
      assert snapshots[..n][..i] == snapshots[..i];
    }
  }

  /** So rows that stay keep their order. */
  lemma DeleteKeepsOrder(snapshots: seq<SnapshotRow>, project: string, sequence: int, i: nat, j: nat) returns (k: nat, l: nat)
    requires i < j < |snapshots| && !Deleted(snapshots[i], project, sequence) && !Deleted(snapshots[j], project, sequence)
    ensures var kept := DeleteBefore(snapshots, project, sequence);
            k < l < |kept| && kept[k] == snapshots[i] && kept[l] == snapshots[j]
  {
    DeletePlace(snapshots, project, sequence, i);
    DeletePlace(snapshots, project, sequence, j);
    DeletePlace(snapshots[..j], project, sequence, i);
    assert snapshots[..j][..i] == snapshots[..i];
    k, l := |DeleteBefore(snapshots[..i], project, sequence)|, |DeleteBefore(snapshots[..j], project, sequence)|;
  }
}
