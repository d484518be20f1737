/** The consumers of the ingest pipeline wired up: a snapshot goes to the history, then to the rule engine, and the
    engine's events follow it into the history. The history's writer runs beside all of it. */
module Delivery {
  import opened Model
  import opened Sorting
  import opened AlertRules
  import opened AlertRuns
  import opened AlertEngine
  import opened HistoryTables
  import opened BatchLog
  import opened BatchWriter
  import opened EndToEnd

  /** Any number of steps of the writer, at any time: it takes records or its timer ticks. */
  method LetWriterRun(b: Batcher)
    requires b.Valid()
    modifies b, b.store
    ensures b.Valid() && b.phase == old(b.phase) && b.accepted == old(b.accepted) && b.refused == old(b.refused)
  {
    hide Batcher.Sound, Ordered;
    var steps: int := *;
    var i := 0;
    while i < steps
      invariant b.Valid() && b.phase == old(b.phase) && b.accepted == old(b.accepted) && b.refused == old(b.refused)
    {
      var takes: bool := *;
      if takes {
        if b.queue != [] && (b.phase == Running || b.phase == Draining) {
          b.Receive();
        }
      } else if b.phase == Running {
        b.Tick();
      }
      i := i + 1;
    }
  }

  /** The history accepted all of these records, in order, unless it refused some. */
  ghost predicate Handed(b: Batcher, records: seq<Record>)
    reads b
  {
    b.refused == [] ==> b.accepted == records
  }

  method Hand(b: Batcher, r: Record, ghost before: seq<Record>)
    requires b.Valid() && Handed(b, before)
    modifies b, b.store
    ensures b.Valid() && Handed(b, before + [r])
    ensures |old(b.refused)| <= |b.refused|
  {
    hide Batcher.Sound, Ordered, Batcher.Valid;
    b.Enqueue(r);
    LetWriterRun(b);
  }

  /** Publishing events: each goes to the history, in order, whatever the writer does in between. */
  method Publish(b: Batcher, events: seq<Event>, ghost before: seq<Record>)
    requires b.Valid() && Handed(b, before)
    modifies b, b.store
    ensures b.Valid() && Handed(b, before + AlertRecords(events))
  {
    hide Batcher.Valid, Handed;
    assert before + AlertRecords(events[..0]) == before;
    for i := 0 to |events|
      invariant b.Valid() && Handed(b, before + AlertRecords(events[..i]))
    {
      Hand(b, AlertRecord(events[i]), before + AlertRecords(events[..i]));
      assert before + AlertRecords(events[..i + 1]) == before + AlertRecords(events[..i]) + [AlertRecord(events[i])];
    }
    assert events[..|events|] == events;
  }

  class Pipeline {
    const engine: Engine
    const history: Batcher
    // The record that went ahead of each input's events.
    ghost var heads: seq<Record>

    ghost predicate Apart()
      reads this, engine, history
    {
      && history !in engine.Repr && history.store !in engine.Repr && this !in engine.Repr
    }

    ghost predicate Valid()
      reads this, engine, engine.Repr, history, history.store
    {
      && Apart() && engine.Valid() && history.Valid()
      && Heads(engine.inputs, heads) && |engine.outputs| == |heads|
      && Handed(history, Feed(heads, engine.outputs))
    }

    constructor (e: Engine, h: Batcher)
      requires e.Valid() && h.Valid() && h !in e.Repr && h.store !in e.Repr
      requires e.inputs == [] && h.accepted == [] && h.refused == []
      ensures Valid() && engine == e && history == h
    {
      engine, history, heads := e, h, [];
    }

    method OnSnapshot(snap: IslandSnapshot)
      requires Valid()
      modifies this, engine, engine.Repr, history, history.store
      ensures Valid() && fresh(engine.Repr - old(engine.Repr))
      ensures engine.inputs == old(engine.inputs) + [Input.Apply(snap)] && heads == old(heads) + [Snapshot(snap)]
    {
      hide Batcher.Valid, Engine.Valid, Handed, AlertRuns.IsRun;
      ghost var fed := Feed(heads, engine.outputs);
      Hand(history, Snapshot(snap), fed);
      var events := engine.Apply(snap);
      Publish(history, events, fed + [Snapshot(snap)]);
      FeedGrows(heads, old(engine.outputs), Snapshot(snap), events);
      heads := heads + [Snapshot(snap)];
    }

    /** A session boundary resets the engine; what that clears follows the boundary into the history. */
    method OnBoundary(boundary: Record, now: Time)
      requires Valid() && (boundary.SessionStart? || boundary.SessionEnd?)
      modifies this, engine, history, history.store
      ensures Valid() && fresh(engine.Repr - old(engine.Repr))
      ensures engine.inputs == old(engine.inputs) + [Input.Reset(now)] && heads == old(heads) + [boundary]
    {
      hide Batcher.Valid, Engine.Valid, Handed, AlertRuns.IsRun;
      ghost var fed := Feed(heads, engine.outputs);
      Hand(history, boundary, fed);
      var events := engine.Reset(now);
      Publish(history, events, fed + [boundary]);
      FeedGrows(heads, old(engine.outputs), boundary, events);
      heads := heads + [boundary];
    }
  }

  lemma FeedGrows(heads: seq<Record>, outputs: seq<seq<Event>>, head: Record, events: seq<Event>)
    requires |heads| == |outputs|
    ensures Feed(heads + [head], outputs + [events]) == Feed(heads, outputs) + [head] + AlertRecords(events)
  {
    assert (heads + [head])[..|heads|] == heads && (outputs + [events])[..|heads|] == outputs;
  }

  /** What the writer has done with the records it took, in any phase. */
  lemma HistoryIsWritten(b: Batcher) returns (closed: Option<Time>)
    requires b.Valid() && AllOk(b.log) && WellFormed(b.start) && NoOpenRows(b.start)
    ensures Written(b.taken, b.start, b.log, b.pending, closed)
    ensures b.store.Contents() == Replay(b.start, b.log)
  {
    hide AllOk, WellFormed, NoOpenRows, Effects, Flat, Submitted, Tried, TriedAlerts, SnapshotsOf, AlertsOf;
    closed := if b.phase == Returned && Effects(b.taken).1 then Some(b.closing) else None;
    assert b.phase != Returned ==> Flat(b.log) + Keeps(b.pending) == Effects(b.taken).0 + [];
    assert b.phase == Returned ==> Flat(b.log) + Keeps([]) == Flat(b.log);
  }

  /** At any moment with an empty queue, while nothing was refused and no write has failed, the rows of a key follow the
      engine. */
  lemma TableMatches(p: Pipeline, key: AlertKey)
    requires p.Valid() && p.history.queue == [] && p.history.refused == [] && AllOk(p.history.log)
    requires WellFormed(p.history.start) && NoOpenRows(p.history.start)
    ensures RowsMatch(p.history.store.Contents(), key, MonitorOf(OpenAlert(StateAfter(p.engine.cfg, p.engine.inputs), key)))
  {
    hide IsRun, OpenRows, OpenAlert, Effects, Feed, Flat, AllOk, WellFormed, NoOpenRows, Replay, Separate, Written, RowsMatch;
    assert p.history.taken + [] == p.history.taken;
    var closed := HistoryIsWritten(p.history);
    OpenRowsMatch(p.engine.cfg, p.engine.inputs, p.engine.outputs, p.heads, p.history.start, p.history.log,
                  p.history.pending, closed, key);
  }

  /** Everything together, at any moment with an empty queue: while the history has refused nothing and no write has
      failed, the open alert rows in the database are exactly the engine's active alerts, whatever snapshots are pending
      and whether a session is running or the writer has stopped. */
  lemma TableShowsActive(p: Pipeline, active: seq<Alert>, key: AlertKey)
    requires p.Valid() && p.history.queue == [] && p.history.refused == [] && AllOk(p.history.log)
    requires WellFormed(p.history.start) && NoOpenRows(p.history.start)
    requires ListsActive(StateAfter(p.engine.cfg, p.engine.inputs), active)
    ensures Shows(OpenRows(p.history.store.Contents(), key), ByKey(active, KeyOf, key))
  {
    hide IsRun, OpenRows, OpenAlert, ListsActive, Pipeline.Valid, AllOk, WellFormed, NoOpenRows, StateAfter, Shows, RowsMatch,
      ByKey;
    TableMatches(p, key);
    ShowsOpen(p.history.store.Contents(), key, StateAfter(p.engine.cfg, p.engine.inputs), active);
  }

  /** And every open row of the table is one of an active alert. */
  lemma TableShowsNothingElse(p: Pipeline, row: AlertRow) returns (key: AlertKey)
    requires p.Valid() && p.history.queue == [] && p.history.refused == [] && AllOk(p.history.log)
    requires WellFormed(p.history.start) && NoOpenRows(p.history.start)
    requires row in p.history.store.alerts && row.clearedAt.None?
    ensures OpenAlert(StateAfter(p.engine.cfg, p.engine.inputs), key).Some?
    ensures row in OpenRows(p.history.store.Contents(), key)
  {
    hide IsRun, OpenRows, OpenAlert, Effects, Feed, Flat, AllOk, WellFormed, NoOpenRows, Replay, Separate, Written;
    assert p.history.taken + [] == p.history.taken;
    var closed := HistoryIsWritten(p.history);
    key := OpenRowIsActive(p.engine.cfg, p.engine.inputs, p.engine.outputs, p.heads, p.history.start, p.history.log,
                           p.history.pending, closed, row);
  }

  /** At any moment, with records still queued or not: every alert the writer has raised found its island's row in the
      database. */
  lemma RaisesFoundIslands(p: Pipeline, i: nat)
    requires p.Valid() && p.history.refused == [] && AllOk(p.history.log)
    requires WellFormed(p.history.start) && NoOpenRows(p.history.start)
    requires i < |p.history.log| && p.history.log[i].op.Raise?
    ensures p.history.log[i].op.raised.island in Replay(p.history.start, p.history.log[..i]).islands
  {
    hide IsRun, Effects, Feed, Flat, AllOk, WellFormed, NoOpenRows, Replay, Separate, Written;
    var closed := HistoryIsWritten(p.history);
    RaiseFindsIsland(p.engine.cfg, p.engine.inputs, p.engine.outputs, p.heads, p.history.taken, p.history.start,
                     p.history.log, p.history.pending, closed, i);
  }
}
