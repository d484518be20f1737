/** The rows of the history after any run, field by field: the alerts, the game sessions and the samples. */
module HistoryRows {
  import opened Model
  import opened Sorting
  import opened AlertRules
  import opened AlertRuns
  import opened HistoryTables
  import opened Compaction
  import opened BatchLog
  import opened BatchWriter
  import opened EndToEnd
  import Dedup
  import Delivery

  // --- alert rows ---

  function Owner(row: AlertRow): (RowId, int32, Rule) { (row.island, row.guid, row.rule) }

  /** All rows of a key, open or closed, in the order of their ids. */
  function RowsOf(db: Db, key: AlertKey): seq<AlertRow> {
    if key.island in db.islands then ByKey(db.alerts, Owner, (db.islands[key.island].id, key.guid, key.rule)) else []
  }

  /** A key's events take turns: a raise, its clear, the next raise. */
  ghost predicate InTurn(events: seq<Event>) {
    forall i :: 0 <= i < |events| ==> (events[i].kind == Raised <==> i % 2 == 0)
  }

  /** The row of the j-th raise: its product, rule, severity and time, and the time of the clear that follows it, if one
      does. */
  predicate RowIs(row: AlertRow, events: seq<Event>, j: nat)
    requires 2 * j < |events|
  {
    var raise := events[2 * j].alert;
    && row.guid == raise.guid && row.rule == raise.rule && row.severity == raise.severity
    && row.raisedAt == raise.raisedAt / 1_000_000
    && row.clearedAt == if 2 * j + 1 < |events| then Some(events[2 * j + 1].alert.clearedAt / 1_000_000) else None
  }

  /** Behind the rows from before, one row for each raise. */
  ghost predicate RowsTell(rows: seq<AlertRow>, before: seq<AlertRow>, events: seq<Event>) {
    && |rows| == |before| + (|events| + 1) / 2 && rows[..|before|] == before
    && var more := rows[|before|..];
       forall j :: 0 <= j < |more| ==> RowIs(more[j], events, j)
  }

  /** Open rows are closed at this time. */
  function Closed(rows: seq<AlertRow>, at: int): seq<AlertRow> {
    seq(|rows|, i requires 0 <= i < |rows| => if rows[i].clearedAt.None? then rows[i].(clearedAt := Some(at)) else rows[i])
  }

  lemma ClosedCons(row: AlertRow, rest: seq<AlertRow>, at: int)
    ensures Closed([row] + rest, at) == Closed([row], at) + Closed(rest, at)
  {
  }

  lemma CloseRowsCons(rows: seq<AlertRow>, i: RowId, g: int32, r: Rule, at: int)
    requires rows != []
    ensures CloseRows(rows, i, g, r, at)
      == [if IsOpen(rows[0], i, g, r) then rows[0].(clearedAt := Some(at)) else rows[0]] + CloseRows(rows[1..], i, g, r, at)
  {
  }

  lemma {:induction false} ClosedByKey(rows: seq<AlertRow>, i: RowId, g: int32, r: Rule, at: int, owner: (RowId, int32, Rule))
    ensures ByKey(CloseRows(rows, i, g, r, at), Owner, owner)
      == if owner == (i, g, r) then Closed(ByKey(rows, Owner, owner), at) else ByKey(rows, Owner, owner)
  {
    if rows != [] {
      hide CloseRows, Closed, ByKey;
      ClosedByKey(rows[1..], i, g, r, at, owner);
      CloseRowsCons(rows, i, g, r, at);
      ClosedCons(rows[0], ByKey(rows[1..], Owner, owner), at);
      OneClosed(rows[0], i, g, r, at, owner);
      ByKeyAppend([rows[0]], rows[1..], Owner, owner);
      assert rows == [rows[0]] + rows[1..];
      ByKeyAppend(CloseRows([rows[0]], i, g, r, at), CloseRows(rows[1..], i, g, r, at), Owner, owner);
    }
  }

  lemma OneClosed(row: AlertRow, i: RowId, g: int32, r: Rule, at: int, owner: (RowId, int32, Rule))
    ensures CloseRows([row], i, g, r, at) == [if IsOpen(row, i, g, r) then row.(clearedAt := Some(at)) else row]
    ensures ByKey([row], Owner, owner) == if Owner(row) == owner then [row] else []
    ensures ByKey(CloseRows([row], i, g, r, at), Owner, owner)
      == if owner == (i, g, r) then Closed(ByKey([row], Owner, owner), at) else ByKey([row], Owner, owner)
  {
    var closed := if IsOpen(row, i, g, r) then row.(clearedAt := Some(at)) else row;
    assert [row][1..] == [] && [closed][1..] == [];
    assert CloseRows([row], i, g, r, at) == [closed];
  }

  lemma {:induction false} NoneOwned(rows: seq<AlertRow>, owner: (RowId, int32, Rule))
    requires forall row :: row in rows ==> row.island != owner.0
    ensures ByKey(rows, Owner, owner) == []
  {
    ByKeyMembers(rows, Owner, owner);
  }

  lemma UpsertSameRows(db: Db, island: IslandKey, name: seq<byte>, ts: int, key: AlertKey)
    requires WellFormed(db)
    ensures WellFormed(UpsertIsland(db, island, name, ts))
    ensures RowsOf(UpsertIsland(db, island, name, ts), key) == RowsOf(db, key)
  {
    hide IdsFit, Ids, ByKey;
    UpsertKeepsRows(db, island, name, ts, key);
    if island !in db.islands {
      NewIdFits(db.islands, island, IslandRow(|db.islands| + 1, name, ts, ts));
      NoneOwned(db.alerts, (|db.islands| + 1, key.guid, key.rule));
    }
  }

  /** Different islands' rows have different owners. */
  lemma OwnersDiffer(islands: Islands, a: IslandKey, b: IslandKey)
    requires IdsFit(islands) && a in islands && b in islands
    ensures islands[a].id == islands[b].id <==> a == b
  {
  }

  lemma RaiseAppends(db: Db, a: Alert, key: AlertKey) returns (row: AlertRow)
    requires WellFormed(db)
    ensures WellFormed(RaiseRow(db, a))
    ensures row == AlertRow(row.island, a.guid, a.rule, a.severity, Millis(a.raisedAt), None)
    ensures RowsOf(RaiseRow(db, a), key) == RowsOf(db, key) + if key == KeyOf(a) then [row] else []
  {
    hide IdsFit, Ids;
    RaiseAddsRow(db, a, key);
    UpsertSameRows(db, a.island, a.islandName, Millis(a.raisedAt), key);
    var known := if a.island in db.islands then db else UpsertIsland(db, a.island, a.islandName, Millis(a.raisedAt));
    var after := RaiseRow(db, a);
    assert after.islands == known.islands && after.alerts[..|known.alerts|] == known.alerts;
    row := after.alerts[|known.alerts|];
    if key.island in known.islands {
      OwnersDiffer(known.islands, key.island, a.island);
      var owner := (known.islands[key.island].id, key.guid, key.rule);
      ByKeyAppend(known.alerts, [row], Owner, owner);
      assert after.alerts == known.alerts + [row];
    }
  }

  lemma ClearCloses(db: Db, a: Alert, key: AlertKey)
    requires WellFormed(db)
    ensures WellFormed(ClearRow(db, a))
    ensures RowsOf(ClearRow(db, a), key) == if key == KeyOf(a) then Closed(RowsOf(db, key), Millis(a.clearedAt)) else RowsOf(db, key)
  {
    hide IdsFit, Ids, ByKey, CloseRows;
    ClearClosesRows(db, a, key);
    if a.island in db.islands && key.island in db.islands {
      OwnersDiffer(db.islands, key.island, a.island);
      ClosedByKey(db.alerts, db.islands[a.island].id, a.guid, a.rule, Millis(a.clearedAt),
                  (db.islands[key.island].id, key.guid, key.rule));
    }
  }

  lemma RaiseTells(rows: seq<AlertRow>, before: seq<AlertRow>, events: seq<Event>, e: Event, row: AlertRow)
    requires RowsTell(rows, before, events) && |events| % 2 == 0
    requires row.guid == e.alert.guid && row.rule == e.alert.rule && row.severity == e.alert.severity
    requires row.raisedAt == Millis(e.alert.raisedAt) && row.clearedAt == None
    ensures RowsTell(rows + [row], before, events + [e])
  {
    var n := |events| / 2;
    assert (rows + [row])[..|before|] == before && (rows + [row])[|before|..] == rows[|before|..] + [row];
    assert |events + [e]| == 2 * n + 1;
  }

  lemma ClearTells(rows: seq<AlertRow>, before: seq<AlertRow>, events: seq<Event>, e: Event)
    requires RowsTell(rows, before, events) && |events| % 2 == 1
    requires forall row :: row in before ==> row.clearedAt.Some?
    ensures RowsTell(Closed(rows, Millis(e.alert.clearedAt)), before, events + [e])
  {
    var n := |events| / 2;
    var after := Closed(rows, Millis(e.alert.clearedAt));
    forall i | 0 <= i < |before| ensures after[..|before|][i] == before[i] {
      assert rows[..|before|][i] == before[i] && before[i] in before;
    }
    assert |events| == 2 * n + 1 && |events + [e]| == 2 * n + 2 && (|events| + 1) / 2 == n + 1;
    var more := rows[|before|..];
    assert after[|before|..] == Closed(more, Millis(e.alert.clearedAt));
    forall j | 0 <= j < n + 1 ensures RowIs(after[|before|..][j], events + [e], j) {
      assert RowIs(more[j], events, j);
    }
  }

  lemma TurnsEnd(events: seq<Event>, e: Event)
    requires InTurn(events + [e])
    ensures InTurn(events) && (e.kind == Raised <==> |events| % 2 == 0)
  {
    assert (events + [e])[|events|] == e;
    assert forall i :: 0 <= i < |events| ==> (events + [e])[i] == events[i];
  }

  lemma EntryTells(db: Db, event: Event, key: AlertKey, before: seq<AlertRow>, events: seq<Event>)
    requires WellFormed(db) && RowsTell(RowsOf(db, key), before, events)
    requires forall row :: row in before ==> row.clearedAt.Some?
    requires EventKey(event) == key && InTurn(events + [event])
    ensures RowsTell(RowsOf(Enter(db, Alerted(event)), key), before, events + [event])
  {
    hide WellFormed, RowsOf, RaiseRow, ClearRow, RowsTell, InTurn, Closed;
    TurnsEnd(events, event);
    if event.kind == Raised {
      var row := RaiseAppends(db, event.alert, key);
      RaiseTells(RowsOf(db, key), before, events, event, row);
    } else {
      ClearCloses(db, event.alert, key);
      ClearTells(RowsOf(db, key), before, events, event);
    }
  }

  lemma OtherEntry(db: Db, e: Entry, key: AlertKey)
    requires WellFormed(db) && (e.Alerted? ==> EventKey(e.event) != key)
    ensures RowsOf(Enter(db, e), key) == RowsOf(db, key)
  {
    hide WellFormed, RowsOf, UpsertIsland, RaiseRow, ClearRow;
    match e
    case Kept(s) => UpsertSameRows(db, s.key, s.name, Millis(s.receivedAt), key);
    case Alerted(event) =>
      var _ := RaiseAppends(db, event.alert, key);
      ClearCloses(db, event.alert, key);
    case _ =>
  }

  lemma {:induction false} EntriesTell(start: Db, entries: seq<Entry>, key: AlertKey)
    requires WellFormed(start) && forall row :: row in RowsOf(start, key) ==> row.clearedAt.Some?
    requires InTurn(ByKey(AlertsIn(entries), EventKey, key))
    ensures WellFormed(EnterAll(start, entries))
    ensures RowsTell(RowsOf(EnterAll(start, entries), key), RowsOf(start, key), ByKey(AlertsIn(entries), EventKey, key))
  {
    hide WellFormed, RowsOf, Enter, RowIs, InTurn, RowsMatch, Hear;
    if entries != [] {
      var init, e := entries[..|entries| - 1], entries[|entries| - 1];
      var events := ByKey(AlertsIn(init), EventKey, key);
      var one := if e.Alerted? && EventKey(e.event) == key then [e.event] else [];
      SplitAlerts(init, e, key);
      assert AlertsIn(entries) == AlertsIn(init) + (if e.Alerted? then [e.event] else []);
      StillInTurn(events, one);
      EntriesTell(start, init, key);
      EnterMatches(EnterAll(start, init), e, key, Broken) by { BrokenMatches(EnterAll(start, init), key); }
      if one != [] {
        EntryTells(EnterAll(start, init), e.event, key, RowsOf(start, key), events);
      } else {
        assert events + [] == events;
        OtherEntry(EnterAll(start, init), e, key);
      }
    }
  }

  lemma BrokenMatches(db: Db, key: AlertKey)
    ensures RowsMatch(db, key, Broken)
  {
  }

  lemma SplitAlerts(init: seq<Entry>, e: Entry, key: AlertKey)
    ensures ByKey(AlertsIn(init + [e]), EventKey, key)
      == ByKey(AlertsIn(init), EventKey, key) + if e.Alerted? && EventKey(e.event) == key then [e.event] else []
  {
    assert (init + [e])[..|init|] == init;
    if e.Alerted? {
      ByKeyAppend(AlertsIn(init), [e.event], EventKey, key);
    } else {
      assert AlertsIn(init) + [] == AlertsIn(init);
    }
  }

  lemma StillInTurn(a: seq<Event>, b: seq<Event>)
    requires InTurn(a + b)
    ensures InTurn(a)
  {
    assert forall i :: 0 <= i < |a| ==> (a + b)[i] == a[i];
  }

  lemma {:induction false} HeardInTurn(events: seq<Event>)
    requires HearAll(Quiet, events) != Broken
    ensures InTurn(events) && (HearAll(Quiet, events).Quiet? <==> |events| % 2 == 0)
  {
    if events != [] {
      HeardInTurn(events[..|events| - 1]);
      assert forall i :: 0 <= i < |events| - 1 ==> events[..|events| - 1][i] == events[i];
    }
  }

  lemma {:induction false} AlertsPrefix(a: seq<Record>, b: seq<Record>)
    requires a <= b
    ensures AlertsOf(a) <= AlertsOf(b)
  {
    AlertsJoin(a, b[|a|..]);
    assert b == a + b[|a|..];
  }

  lemma KeyPrefix(a: seq<Event>, b: seq<Event>, key: AlertKey)
    requires a <= b && InTurn(ByKey(b, EventKey, key))
    ensures InTurn(ByKey(a, EventKey, key))
  {
    ByKeyAppend(a, b[|a|..], EventKey, key);
    assert b == a + b[|a|..];
    StillInTurn(ByKey(a, EventKey, key), ByKey(b[|a|..], EventKey, key));
  }

  lemma RunInTurn(cfg: Config, inputs: seq<Input>, outputs: seq<seq<Event>>, key: AlertKey)
    requires IsRun(cfg, inputs, outputs)
    ensures InTurn(ByKey(Stream(outputs), EventKey, key))
  {
    hide IsRun, StateAfter, OpenAlert, ByKey, HearAll;
    RunHeard(cfg, inputs, outputs, key);
    HeardInTurn(ByKey(Stream(outputs), EventKey, key));
  }

  lemma WrittenTells(records: seq<Record>, start: Db, log: seq<Attempt>, pending: seq<IslandSnapshot>, closed: Option<Time>,
                     key: AlertKey)
    requires Written(records, start, log, pending, closed) && InTurn(ByKey(AlertsOf(records), EventKey, key))
    ensures RowsTell(RowsOf(Replay(start, log), key), RowsOf(start, key), ByKey(AlertsOf(records), EventKey, key))
  {
    hide Replay, Flat, EnterAll, Effects, AlertsIn, AlertsOf, WellFormed, OpenRows, AllOk, ByKey, Keeps, ClosingEntries,
      RowsTell, InTurn;
    ReplayIsEntered(start, log);
    BareSame(start, key);
    OldRowsClosed(start, key);
    EntriesTell(Bare(start), Flat(log), key) by {
      SameAlerts(Flat(log), pending, Effects(records).0, closed);
      EffectsCarryAlerts(records);
    }
    SameAlerts(Flat(log), pending, Effects(records).0, closed);
    EffectsCarryAlerts(records);
    BareRows(start, key);
    BareRows(Replay(start, log), key);
  }

  lemma BareRows(db: Db, key: AlertKey)
    ensures RowsOf(Bare(db), key) == RowsOf(db, key)
  {
  }

  lemma OldRowsClosed(db: Db, key: AlertKey)
    requires NoOpenRows(db)
    ensures forall row :: row in RowsOf(db, key) ==> row.clearedAt.Some?
  {
    if key.island in db.islands {
      ByKeyMembers(db.alerts, Owner, (db.islands[key.island].id, key.guid, key.rule));
    }
  }

  /** At any moment, while nothing was refused and no write has failed: behind the rows a key had before, it has one row
      for each of its raises taken so far, with that alert's severity and time, closed at the time of the clear that
      followed it. */
  lemma AlertRowsAre(p: Delivery.Pipeline, key: AlertKey)
    requires p.Valid() && p.history.refused == [] && AllOk(p.history.log)
    requires WellFormed(p.history.start) && NoOpenRows(p.history.start)
    ensures RowsTell(RowsOf(p.history.store.Contents(), key), RowsOf(p.history.start, key),
                     ByKey(AlertsOf(p.history.taken), EventKey, key))
    ensures AlertsOf(p.history.taken) <= Stream(p.engine.outputs)
    ensures p.history.queue == [] ==> AlertsOf(p.history.taken) == Stream(p.engine.outputs)
  {
    hide IsRun, Effects, Feed, Flat, AllOk, WellFormed, NoOpenRows, Replay, Written, RowsTell, RowsOf, ByKey,
      InTurn, AlertsOf;
    var closed := Delivery.HistoryIsWritten(p.history);
    RunInTurn(p.engine.cfg, p.engine.inputs, p.engine.outputs, key);
    FeedCarriesStream(p.heads, p.engine.outputs);
    AlertsPrefix(p.history.taken, p.history.accepted);
    assert p.history.queue == [] ==> p.history.taken == p.history.accepted;
    KeyPrefix(AlertsOf(p.history.taken), Stream(p.engine.outputs), key);
    WrittenTells(p.history.taken, p.history.start, p.history.log, p.history.pending, closed, key);
  }

  // --- session rows ---

  predicate Boundary(r: Record) { r.SessionStart? || r.SessionEnd? }

  function TimeOf(r: Record): Time
    requires Boundary(r)
  {
    if r.SessionStart? then r.start else r.end
  }

  /** A session ends at the next boundary, or when the writer stopped, or has not ended. */
  ghost predicate EndIs(records: seq<Record>, i: nat, closing: Option<Time>, endedAt: Option<int>)
    requires i < |records|
  {
    if exists j :: i < j < |records| && Boundary(records[j]) then
      exists j :: i < j < |records| && Boundary(records[j]) && (forall k :: i < k < j ==> !Boundary(records[k]))
        && endedAt == Some(TimeOf(records[j]) / 1_000_000)
    else endedAt == match closing case None => None case Some(at) => Some(at / 1_000_000)
  }

  /** The row of the session that this record starts. */
  ghost predicate SessionRowIs(row: SessionRow, records: seq<Record>, i: nat, closing: Option<Time>) {
    && i < |records| && records[i].SessionStart?
    && row.startedAt == records[i].start / 1_000_000 && row.version == records[i].version && row.headline == records[i].headline
    && EndIs(records, i, closing, row.endedAt)
  }

  /** These records are the starts, in order. */
  ghost predicate StartsAt(records: seq<Record>, at: seq<nat>) {
    && (forall a :: 0 <= a < |at| ==> at[a] < |records| && records[at[a]].SessionStart?)
    && (forall a, b :: 0 <= a < b < |at| ==> at[a] < at[b])
    && forall i :: 0 <= i < |records| && records[i].SessionStart? ==> i in at
  }

  /** Behind the rows from before, one row for each start. */
  ghost predicate SessionsTell(rows: seq<SessionRow>, before: seq<SessionRow>, records: seq<Record>, at: seq<nat>,
                               closing: Option<Time>)
  {
    && StartsAt(records, at) && |rows| == |before| + |at| && rows[..|before|] == before
    && var more := rows[|before|..];
       forall a :: 0 <= a < |at| ==> SessionRowIs(more[a], records, at[a], closing)
  }

  lemma EndKept(records: seq<Record>, r: Record, i: nat, endedAt: Option<int>)
    requires i < |records| && EndIs(records, i, None, endedAt)
    requires !Boundary(r) || exists j :: i < j < |records| && Boundary(records[j])
    ensures EndIs(records + [r], i, None, endedAt)
  {
    var more := records + [r];
    assert forall j :: 0 <= j < |records| ==> more[j] == records[j];
    if j :| i < j < |records| && Boundary(records[j]) {
      assert Boundary(more[j]);
      var n :| i < n < |records| && Boundary(records[n]) && (forall k :: i < k < n ==> !Boundary(records[k]))
        && endedAt == Some(TimeOf(records[n]) / 1_000_000);
      assert Boundary(more[n]);
    }
  }

  lemma EndNow(records: seq<Record>, r: Record, i: nat)
    requires i < |records| && Boundary(r) && !exists j :: i < j < |records| && Boundary(records[j])
    ensures EndIs(records + [r], i, None, Some(TimeOf(r) / 1_000_000))
  {
    var more, n := records + [r], |records|;
    assert forall j :: 0 <= j < |records| ==> more[j] == records[j];
    assert Boundary(more[n]);
  }

  /** A session is running: no boundary has followed the last start. */
  ghost predicate StillUp(records: seq<Record>, at: seq<nat>) {
    at != [] && at[|at| - 1] < |records| && !exists j :: at[|at| - 1] < j < |records| && Boundary(records[j])
  }

  /** These rows are those of the starts, whether or not the records' last one is a start itself. */
  ghost predicate RowsAre(more: seq<SessionRow>, records: seq<Record>, at: seq<nat>, closing: Option<Time>) {
    |more| == |at| && forall a :: 0 <= a < |at| ==> SessionRowIs(more[a], records, at[a], closing)
  }

  lemma FollowedByStart(records: seq<Record>, at: seq<nat>, a: nat)
    requires StartsAt(records, at) && a < |at| && (a + 1 < |at| || !StillUp(records, at))
    ensures exists j :: at[a] < j < |records| && Boundary(records[j])
  {
    if a + 1 < |at| {
      assert Boundary(records[at[a + 1]]);
    }
  }

  lemma RowKept(row: SessionRow, records: seq<Record>, r: Record, i: nat)
    requires SessionRowIs(row, records, i, None)
    requires !Boundary(r) || exists j :: i < j < |records| && Boundary(records[j])
    ensures SessionRowIs(row, records + [r], i, None)
  {
    EndKept(records, r, i, row.endedAt);
  }

  /** A boundary ends the session that is running. */
  lemma BoundaryEnds(more: seq<SessionRow>, records: seq<Record>, r: Record, at: seq<nat>)
    requires StartsAt(records, at) && RowsAre(more, records, at, None) && Boundary(r)
    ensures StillUp(records, at) ==> more != [] && more[|more| - 1].endedAt.None?
    ensures RowsAre(if StillUp(records, at) then more[|more| - 1 := more[|more| - 1].(endedAt := Some(TimeOf(r) / 1_000_000))]
                    else more, records + [r], at, None)
  {
    hide EndIs, StartsAt, TimeOf, Boundary;
    var last := |more| - 1;
    if StillUp(records, at) {
      LastIsOpen(more, records, at);
      EndNow(records, r, at[last]);
      assert (records + [r])[at[last]] == records[at[last]];
    }
    forall a | 0 <= a < |at| && !(StillUp(records, at) && a == last)
      ensures SessionRowIs(more[a], records + [r], at[a], None)
    {
      FollowedByStart(records, at, a);
      RowKept(more[a], records, r, at[a]);
    }
  }

  lemma LastIsOpen(more: seq<SessionRow>, records: seq<Record>, at: seq<nat>)
    requires RowsAre(more, records, at, None) && StillUp(records, at)
    ensures more != [] && more[|more| - 1].endedAt.None?
  {
    hide SessionRowIs, Boundary;
    OpenNow(more[|at| - 1], records, at[|at| - 1]);
  }

  lemma OpenNow(row: SessionRow, records: seq<Record>, i: nat)
    requires SessionRowIs(row, records, i, None) && !exists j :: i < j < |records| && Boundary(records[j])
    ensures row.endedAt.None?
  {
  }

  lemma StartsStay(records: seq<Record>, r: Record, at: seq<nat>)
    requires StartsAt(records, at)
    ensures StartsAt(records + [r], if r.SessionStart? then at + [|records|] else at)
  {
    var next := if r.SessionStart? then at + [|records|] else at;
    forall i | 0 <= i < |records + [r]| && (records + [r])[i].SessionStart? ensures i in next {
      if i == |records| { assert next[|at|] == i; } else { assert records[i].SessionStart?; }
    }
  }

  /** What an entry does to the sessions: a new row, or the end of the newest. */
  function EnterSession(rows: seq<SessionRow>, e: Entry): seq<SessionRow> {
    match e
    case Began(at, version, headline) => rows + [SessionRow(Millis(at), None, version, headline)]
    case Ended(at) => EndRow(rows, |rows|, Millis(at))
    case _ => rows
  }

  function EnterSessions(rows: seq<SessionRow>, entries: seq<Entry>): seq<SessionRow> {
    if entries == [] then rows else EnterSession(EnterSessions(rows, entries[..|entries| - 1]), entries[|entries| - 1])
  }

  lemma {:induction false} SessionsJoin(rows: seq<SessionRow>, a: seq<Entry>, b: seq<Entry>)
    ensures EnterSessions(rows, a + b) == EnterSessions(EnterSessions(rows, a), b)
  {
    hide EnterSession;
    if b == [] {
      assert a + b == a;
    } else {
      assert (a + b)[..|a + b| - 1] == a + b[..|b| - 1];
      SessionsJoin(rows, a, b[..|b| - 1]);
    }
  }

  lemma {:induction false} KeepsNoSession(rows: seq<SessionRow>, snaps: seq<IslandSnapshot>)
    ensures EnterSessions(rows, Keeps(snaps)) == rows
  {
    if snaps != [] {
      KeepsNoSession(rows, snaps[..|snaps| - 1]);
      assert Keeps(snaps)[..|snaps| - 1] == Keeps(snaps[..|snaps| - 1]);
    }
  }

  lemma OneSession(rows: seq<SessionRow>, e: Entry)
    ensures EnterSessions(rows, [e]) == EnterSession(rows, e) && EnterSessions(rows, []) == rows
  {
    assert [e][..0] == [];
  }

  lemma OpSessions(db: Db, op: Op)
    requires op.Finish? ==> op.id == |db.sessions|
    ensures Applied(db, op).sessions == EnterSessions(db.sessions, EntriesOf(op))
  {
    hide EnterSessions, StoreOne;
    OpsKeepSessions(db, op);
    if op.Store? {
      KeepsNoSession(db.sessions, op.snaps);
    } else {
      OneSession(db.sessions, EntriesOf(op)[0]);
    }
  }

  lemma {:induction false} LogSessions(start: Db, log: seq<Attempt>)
    requires AllOk(log) && EndsNewest(start, log)
    ensures Replay(start, log).sessions == EnterSessions(start.sessions, Flat(log))
  {
    if log != [] {
      hide EnterSessions, Applied, EntriesOf;
      var init, a := log[..|log| - 1], log[|log| - 1];
      assert a in log && forall x :: x in init ==> x in log;
      LogSessions(start, init);
      OpSessions(Replay(start, init), a.op);
      SessionsJoin(start.sessions, Flat(init), EntriesOf(a.op));
    }
  }

  /** The running session's row is ended, or nothing happens. */
  lemma EndEntries(rows: seq<SessionRow>, before: seq<SessionRow>, more: seq<SessionRow>, up: bool, at: Time)
    requires rows == before + more && (up ==> more != [] && more[|more| - 1].endedAt.None?)
    ensures EnterSessions(rows, if up then [Ended(at)] else [])
      == before + if up then more[|more| - 1 := more[|more| - 1].(endedAt := Some(Millis(at)))] else more
  {
    OneSession(rows, Ended(at));
  }

  lemma NotUp(records: seq<Record>, r: Record, at: seq<nat>)
    requires StartsAt(records, at)
    ensures r.SessionStart? ==> StillUp(records + [r], at + [|records|])
    ensures r.SessionEnd? ==> !StillUp(records + [r], at)
    ensures !Boundary(r) ==> (StillUp(records + [r], at) <==> StillUp(records, at))
  {
    assert forall j :: 0 <= j < |records| ==> (records + [r])[j] == records[j];
    assert (records + [r])[|records|] == r;
  }

  lemma RowBegun(records: seq<Record>, r: Record)
    requires r.SessionStart?
    ensures SessionRowIs(SessionRow(Millis(r.start), None, r.version, r.headline), records + [r], |records|, None)
  {
  }

  lemma OtherTells(before: seq<SessionRow>, more: seq<SessionRow>, records: seq<Record>, r: Record, at: seq<nat>)
    requires StartsAt(records, at) && RowsAre(more, records, at, None) && !Boundary(r)
    ensures RowsAre(more, records + [r], at, None)
    ensures EnterSessions(before + more, EffectOf(r, StillUp(records, at)).0) == before + more
  {
    hide StartsAt, SessionRowIs, EnterSessions, StillUp;
    forall a | 0 <= a < |at| ensures SessionRowIs(more[a], records + [r], at[a], None) {
      RowKept(more[a], records, r, at[a]);
    }
    OneSession(before + more, EffectOf(r, StillUp(records, at)).0[0]);
  }

  lemma StartTells(before: seq<SessionRow>, more: seq<SessionRow>, records: seq<Record>, r: Record, at: seq<nat>)
    returns (after: seq<SessionRow>)
    requires StartsAt(records, at) && RowsAre(more, records, at, None) && r.SessionStart?
    ensures RowsAre(after, records + [r], at + [|records|], None)
    ensures EnterSessions(before + more, EffectOf(r, StillUp(records, at)).0) == before + after
  {
    hide StartsAt, SessionRowIs, EnterSessions, StillUp, EndRow;
    var up := StillUp(records, at);
    BoundaryEnds(more, records, r, at);
    EndEntries(before + more, before, more, up, r.start);
    var ended := if up then more[|more| - 1 := more[|more| - 1].(endedAt := Some(Millis(r.start)))] else more;
    var row := SessionRow(Millis(r.start), None, r.version, r.headline);
    RowBegun(records, r);
    after := ended + [row];
    SessionsJoin(before + more, if up then [Ended(r.start)] else [], [Began(r.start, r.version, r.headline)]);
    OneSession(before + ended, Began(r.start, r.version, r.headline));
    assert before + ended + [row] == before + after;
  }

  lemma EffectTells(before: seq<SessionRow>, more: seq<SessionRow>, records: seq<Record>, r: Record, at: seq<nat>)
    returns (next: seq<nat>, after: seq<SessionRow>)
    requires StartsAt(records, at) && RowsAre(more, records, at, None)
    ensures StartsAt(records + [r], next) && RowsAre(after, records + [r], next, None)
    ensures EnterSessions(before + more, EffectOf(r, StillUp(records, at)).0) == before + after
    ensures EffectOf(r, StillUp(records, at)).1 == StillUp(records + [r], next)
  {
    hide StartsAt, RowsAre, EnterSessions, StillUp;
    StartsStay(records, r, at);
    NotUp(records, r, at);
    match r
    case SessionStart(_, _, _) =>
      next := at + [|records|];
      after := StartTells(before, more, records, r, at);
    case SessionEnd(end) =>
      var up := StillUp(records, at);
      BoundaryEnds(more, records, r, at);
      EndEntries(before + more, before, more, up, end);
      next, after := at, if up then more[|more| - 1 := more[|more| - 1].(endedAt := Some(Millis(end)))] else more;
    case _ =>
      OtherTells(before, more, records, r, at);
      next, after := at, more;
  }

  lemma {:induction false} RecordsTell(before: seq<SessionRow>, records: seq<Record>)
    returns (at: seq<nat>, more: seq<SessionRow>)
    ensures StartsAt(records, at) && RowsAre(more, records, at, None)
    ensures EnterSessions(before, Effects(records).0) == before + more && Effects(records).1 == StillUp(records, at)
  {
    hide StartsAt, RowsAre, StillUp, EffectOf;
    if records == [] {
      NoRecords(before);
      at, more := [], [];
    } else {
      var init, r := records[..|records| - 1], records[|records| - 1];
      assert records == init + [r];
      at, more := RecordsTell(before, init);
      var up := StillUp(init, at);
      SessionsJoin(before, Effects(init).0, EffectOf(r, up).0);
      at, more := EffectTells(before, more, init, r, at);
    }
  }

  lemma NoRecords(before: seq<SessionRow>)
    ensures StartsAt([], []) && RowsAre([], [], [], None) && !StillUp([], []) && EnterSessions(before, []) == before + []
  {
  }

  /** The end the writer itself wrote when it returned. */
  lemma ClosedTells(before: seq<SessionRow>, more: seq<SessionRow>, records: seq<Record>, at: seq<nat>, closing: Time)
    returns (after: seq<SessionRow>)
    requires StartsAt(records, at) && RowsAre(more, records, at, None)
    ensures RowsAre(after, records, at, Some(closing))
    ensures EnterSessions(before + more, if StillUp(records, at) then [Ended(closing)] else []) == before + after
  {
    hide EnterSessions, StartsAt, EndIs;
    var up, last := StillUp(records, at), |more| - 1;
    if up { LastIsOpen(more, records, at); }
    EndEntries(before + more, before, more, up, closing);
    after := if up then more[last := more[last].(endedAt := Some(Millis(closing)))] else more;
    forall a | 0 <= a < |at| ensures SessionRowIs(after[a], records, at[a], Some(closing)) {
      if up && a == last { EndedNow(records, at[a], closing); } else {
        FollowedByStart(records, at, a);
        SameEnd(records, at[a], closing, more[a].endedAt);
      }
    }
  }

  lemma EndedNow(records: seq<Record>, i: nat, closing: Time)
    requires i < |records| && !exists j :: i < j < |records| && Boundary(records[j])
    ensures EndIs(records, i, Some(closing), Some(Millis(closing)))
  {
  }

  lemma SameEnd(records: seq<Record>, i: nat, closing: Time, endedAt: Option<int>)
    requires i < |records| && (exists j :: i < j < |records| && Boundary(records[j])) && EndIs(records, i, None, endedAt)
    ensures EndIs(records, i, Some(closing), endedAt)
  {
  }

  /** At any moment while no write has failed: behind the session rows from before, one row for each session start taken,
      with its time, version and headline; it ended at the next boundary taken, start or end, or else when the writer
      returned, or has not ended. */
  lemma SessionRowsAre(b: Batcher) returns (at: seq<nat>)
    requires b.Valid() && AllOk(b.log)
    ensures SessionsTell(b.store.sessions, b.start.sessions, b.taken, at, if b.phase == Returned then Some(b.closing) else None)
  {
    hide AllOk, Effects, Flat, Submitted, Tried, TriedAlerts, SnapshotsOf, AlertsOf, StartsAt, SessionRowIs, EnterSessions,
      Replay, OpenSessions, EndsNewest, StillUp;
    LogSessions(b.start, b.log);
    var before, more := b.start.sessions, [];
    at, more := RecordsTell(before, b.taken);
    if b.phase == Returned {
      SessionsJoin(before, Effects(b.taken).0, if StillUp(b.taken, at) then [Ended(b.closing)] else []);
      more := ClosedTells(before, more, b.taken, at, b.closing);
    } else {
      SessionsJoin(before, Flat(b.log), Keeps(b.pending));
      KeepsNoSession(EnterSessions(before, Flat(b.log)), b.pending);
    }
    assert (before + more)[..|before|] == before && (before + more)[|before|..] == more;
  }

  // --- the newest sample ---

  /** A write that succeeded stored a snapshot of this time. */
  ghost predicate StoredAt(log: seq<Attempt>, ms: int) {
    exists i, j :: 0 <= i < |log| && log[i].ok && log[i].op.Store? && 0 <= j < |log[i].op.snaps|
      && log[i].op.snaps[j].receivedAt / 1_000_000 == ms
  }

  lemma {:induction false} NewestIs(snaps: seq<IslandSnapshot>)
    ensures forall s :: s in snaps ==> s.receivedAt / 1_000_000 <= Newest(snaps)
    ensures Newest(snaps) == 0 || exists j :: 0 <= j < |snaps| && snaps[j].receivedAt / 1_000_000 == Newest(snaps)
  {
    if snaps != [] {
      var init, last := snaps[..|snaps| - 1], snaps[|snaps| - 1];
      NewestIs(init);
      assert forall s :: s in snaps ==> s in init || s == last;
      if Newest(snaps) == Newest(init) && Newest(init) != 0 {
        var j :| 0 <= j < |init| && init[j].receivedAt / 1_000_000 == Newest(init);
        assert snaps[j] == init[j];
      } else if Newest(snaps) != 0 {
        assert snaps[|init|].receivedAt / 1_000_000 == Newest(snaps);
      }
    }
  }

  lemma {:induction false} StoreKeepsLast(db: Db, snaps: seq<IslandSnapshot>)
    ensures StoreAll(db, snaps).lastSample == db.lastSample
  {
    if snaps != [] {
      hide ReplaceAll;
      StoreKeepsLast(db, snaps[..|snaps| - 1]);
    }
  }

  /** One write moves the time of the newest sample to the newest one it stored, if that is later. */
  lemma WriteMoves(db: Db, op: Op)
    ensures Applied(db, op).lastSample >= db.lastSample
    ensures !op.Store? ==> Applied(db, op).lastSample == db.lastSample
    ensures op.Store? ==> forall s :: s in op.snaps ==> s.receivedAt / 1_000_000 <= Applied(db, op).lastSample
    ensures op.Store? && Applied(db, op).lastSample !in {db.lastSample, 0} ==>
      exists j :: 0 <= j < |op.snaps| && op.snaps[j].receivedAt / 1_000_000 == Applied(db, op).lastSample
  {
    if op.Store? {
      hide StoreAll, Newest;
      StoreKeepsLast(db, op.snaps);
      NewestIs(op.snaps);
    }
  }

  lemma StoredStays(log: seq<Attempt>, a: Attempt, ms: int)
    requires StoredAt(log, ms)
    ensures StoredAt(log + [a], ms)
  {
    var i, j :| 0 <= i < |log| && log[i].ok && log[i].op.Store? && 0 <= j < |log[i].op.snaps|
      && log[i].op.snaps[j].receivedAt / 1_000_000 == ms;
    assert (log + [a])[i] == log[i];
  }

  lemma StoredNow(log: seq<Attempt>, a: Attempt, ms: int)
    ensures StoredAt(log + [a], ms) ==> StoredAt(log, ms) || (a.ok && StoredAt([a], ms))
    ensures a.ok && a.op.Store? && (exists j :: 0 <= j < |a.op.snaps| && a.op.snaps[j].receivedAt / 1_000_000 == ms)
      ==> StoredAt(log + [a], ms)
  {
    assert (log + [a])[|log|] == a && [a][0] == a;
    assert forall i :: 0 <= i < |log| ==> (log + [a])[i] == log[i];
  }

  lemma StoredOne(a: Attempt, db: Db, ms: int)
    requires a.ok && StoredAt([a], ms)
    ensures ms <= Applied(db, a.op).lastSample
  {
    hide Applied;
    WriteMoves(db, a.op);
    var i, j :| 0 <= i < 1 && [a][i].ok && [a][i].op.Store? && 0 <= j < |[a][i].op.snaps|
      && [a][i].op.snaps[j].receivedAt / 1_000_000 == ms;
    assert a.op.snaps[j] in a.op.snaps;
  }

  /** The time of the newest sample is at least that of everything stored and, unless nothing later than what was there
      at the start was stored, that of a stored snapshot. */
  lemma {:induction false} NewestSampleIs(start: Db, log: seq<Attempt>)
    ensures var last := Replay(start, log).lastSample;
      && last >= start.lastSample
      && (forall ms :: StoredAt(log, ms) ==> ms <= last)
      && (last in {start.lastSample, 0} || StoredAt(log, last))
  {
    if log != [] {
      hide Applied, StoredAt;
      var init, a := log[..|log| - 1], log[|log| - 1];
      assert log == init + [a];
      NewestSampleIs(start, init);
      var db := Replay(start, init);
      var last := Replay(start, log).lastSample;
      WriteMoves(db, a.op);
      forall ms | StoredAt(log, ms) ensures ms <= last {
        StoredNow(init, a, ms);
        if a.ok && StoredAt([a], ms) { StoredOne(a, db, ms); }
      }
      StoredNow(init, a, last);
      if StoredAt(init, last) { StoredStays(init, a, last); }
    } else {
      NothingStored();
    }
  }

  lemma NothingStored()
    ensures forall ms :: !StoredAt([], ms)
  {
  }

  // --- sample rows ---

  /** The j-th entry of the i-th snapshot is written to this row. */
  predicate Lists(islands: Islands, snaps: seq<IslandSnapshot>, i: nat, j: nat, k: RowKey) {
    && i < |snaps| && j < |snaps[i].products|
    && snaps[i].key in islands && islands[snaps[i].key].id == k.island
    && snaps[i].products[j].guid == k.guid && snaps[i].receivedAt / 1_000_000 == k.ts
  }

  /** It is the last that is. */
  ghost predicate ListedLast(islands: Islands, snaps: seq<IslandSnapshot>, i: nat, j: nat, k: RowKey) {
    && Lists(islands, snaps, i, j, k)
    && forall i': nat, j': nat :: Lists(islands, snaps, i', j', k) ==> i' < i || (i' == i && j' <= j)
  }

  lemma {:induction false} ReplaceElsewhere(samples: map<RowKey, SampleRow>, island: RowId, ts: int, entries: seq<ProductStat>,
                                            gameTs: int64, k: RowKey)
    requires k.island != island || k.ts != ts
    ensures var after := ReplaceAll(samples, island, ts, entries, gameTs);
      (k in after <==> k in samples) && (k in samples ==> after[k] == samples[k])
  {
    if entries != [] {
      ReplaceElsewhere(samples, island, ts, entries[..|entries| - 1], gameTs, k);
    }
  }

  lemma {:induction false} IdsStay(db: Db, snaps: seq<IslandSnapshot>)
    ensures forall key :: key in db.islands ==> key in StoreAll(db, snaps).islands && StoreAll(db, snaps).islands[key].id == db.islands[key].id
    ensures forall s :: s in snaps ==> s.key in StoreAll(db, snaps).islands
  {
    if snaps != [] {
      hide ReplaceAll;
      IdsStay(db, snaps[..|snaps| - 1]);
      assert forall s :: s in snaps ==> s in snaps[..|snaps| - 1] || s == snaps[|snaps| - 1];
    }
  }

  lemma SameLists(db: Db, snaps: seq<IslandSnapshot>, s: IslandSnapshot, k: RowKey)
    ensures var before, after := StoreAll(db, snaps).islands, StoreAll(db, snaps + [s]).islands;
      forall i: nat, j: nat :: i < |snaps| ==> (Lists(after, snaps + [s], i, j, k) <==> Lists(before, snaps, i, j, k))
  {
    hide ReplaceAll;
    assert (snaps + [s])[..|snaps|] == snaps;
    IdsStay(db, snaps);
    var before, after := StoreAll(db, snaps).islands, StoreAll(db, snaps + [s]).islands;
    assert forall key :: key in before ==> key in after && after[key].id == before[key].id;
    assert forall i :: 0 <= i < |snaps| ==> (snaps + [s])[i] == snaps[i] && snaps[i] in snaps;
  }

  /** A row holds the last entry written to it, with its snapshot's game time, or what it held. */
  ghost predicate Holds(islands: Islands, snaps: seq<IslandSnapshot>, before: map<RowKey, SampleRow>,
                        after: map<RowKey, SampleRow>, k: RowKey)
  {
    && (forall i: nat, j: nat :: ListedLast(islands, snaps, i, j, k) ==>
          k in after && after[k] == SampleRow(snaps[i].products[j], snaps[i].gameTimestamp))
    && ((forall i: nat, j: nat :: !Lists(islands, snaps, i, j, k)) ==>
          (k in after <==> k in before) && (k in before ==> after[k] == before[k]))
  }

  lemma HoldsIf(islands: Islands, snaps: seq<IslandSnapshot>, before: map<RowKey, SampleRow>, after: map<RowKey, SampleRow>,
                k: RowKey, m: nat, n: nat)
    requires Lists(islands, snaps, m, n, k)
    requires forall i: nat, j: nat :: ListedLast(islands, snaps, i, j, k) ==>
      k in after && after[k] == SampleRow(snaps[i].products[j], snaps[i].gameTimestamp)
    ensures Holds(islands, snaps, before, after, k)
  {
  }

  lemma HoldsLast(db: Db, snaps: seq<IslandSnapshot>, s: IslandSnapshot, k: RowKey, n: nat)
    requires Lists(StoreAll(db, snaps + [s]).islands, snaps + [s], |snaps|, n, k)
    ensures Holds(StoreAll(db, snaps + [s]).islands, snaps + [s], db.samples, StoreAll(db, snaps + [s]).samples, k)
  {
    hide ReplaceAll, Holds;
    var all, after, seen := snaps + [s], StoreAll(db, snaps + [s]), StoreAll(db, snaps);
    assert all[..|snaps|] == snaps && all[|snaps|] == s;
    Dedup.ReplaceHoldsLast(seen.samples, k.island, k.ts, s.products, s.gameTimestamp, k.guid);
    var last := Dedup.LastIndex(s.products, k.guid);
    assert Lists(after.islands, all, |snaps|, last, k);
    forall i: nat, j: nat | ListedLast(after.islands, all, i, j, k)
      ensures k in after.samples && after.samples[k] == SampleRow(all[i].products[j], all[i].gameTimestamp)
    {
      assert i == |snaps| && j == last;
    }
    HoldsIf(after.islands, all, db.samples, after.samples, k, |snaps|, n);
  }

  lemma StoredElsewhere(db: Db, snaps: seq<IslandSnapshot>, s: IslandSnapshot, k: RowKey)
    requires forall n: nat :: !Lists(StoreAll(db, snaps + [s]).islands, snaps + [s], |snaps|, n, k)
    ensures var after, seen := StoreAll(db, snaps + [s]).samples, StoreAll(db, snaps).samples;
      (k in after <==> k in seen) && (k in seen ==> after[k] == seen[k])
  {
    hide ReplaceAll;
    var all, after, seen := snaps + [s], StoreAll(db, snaps + [s]), StoreAll(db, snaps);
    assert all[..|snaps|] == snaps && all[|snaps|] == s && s.key in after.islands;
    var island, ts := after.islands[s.key].id, Millis(s.receivedAt);
    if k.island == island && k.ts == ts {
      Dedup.ReplaceHoldsLast(seen.samples, island, ts, s.products, s.gameTimestamp, k.guid);
      var last := Dedup.LastIndex(s.products, k.guid);
      if last >= 0 { assert !Lists(after.islands, all, |snaps|, last, k); }
    } else {
      ReplaceElsewhere(seen.samples, island, ts, s.products, s.gameTimestamp, k);
    }
  }

  lemma HoldsStill(db: Db, snaps: seq<IslandSnapshot>, s: IslandSnapshot, k: RowKey)
    requires Holds(StoreAll(db, snaps).islands, snaps, db.samples, StoreAll(db, snaps).samples, k)
    requires forall n: nat :: !Lists(StoreAll(db, snaps + [s]).islands, snaps + [s], |snaps|, n, k)
    ensures Holds(StoreAll(db, snaps + [s]).islands, snaps + [s], db.samples, StoreAll(db, snaps + [s]).samples, k)
  {
    hide StoreAll, Holds, Lists;
    var after, seen := StoreAll(db, snaps + [s]), StoreAll(db, snaps);
    StoredElsewhere(db, snaps, s, k);
    SameLists(db, snaps, s, k);
    SameHolds(seen.islands, after.islands, snaps, s, db.samples, seen.samples, after.samples, k);
  }

  lemma SameHolds(a: Islands, b: Islands, snaps: seq<IslandSnapshot>, s: IslandSnapshot, before: map<RowKey, SampleRow>,
                  seen: map<RowKey, SampleRow>, after: map<RowKey, SampleRow>, k: RowKey)
    requires Holds(a, snaps, before, seen, k) && (k in after <==> k in seen) && (k in seen ==> after[k] == seen[k])
    requires forall i: nat, j: nat :: i < |snaps| ==> (Lists(b, snaps + [s], i, j, k) <==> Lists(a, snaps, i, j, k))
    requires forall n: nat :: !Lists(b, snaps + [s], |snaps|, n, k)
    ensures Holds(b, snaps + [s], before, after, k)
  {
    hide Lists;
    var all := snaps + [s];
    ListsWithin(a, snaps, k);
    ListsWithin(b, all, k);
    forall i: nat, j: nat ensures Lists(b, all, i, j, k) <==> Lists(a, snaps, i, j, k) {
      if i < |snaps| { assert Lists(b, all, i, j, k) <==> Lists(a, snaps, i, j, k); }
    }
    forall i: nat, j: nat | ListedLast(b, all, i, j, k)
      ensures k in after && after[k] == SampleRow(all[i].products[j], all[i].gameTimestamp)
    {
      assert ListedLast(a, snaps, i, j, k);
      assert all[i] == snaps[i];
    }
  }

  lemma ListsWithin(islands: Islands, snaps: seq<IslandSnapshot>, k: RowKey)
    ensures forall i: nat, j: nat :: Lists(islands, snaps, i, j, k) ==> i < |snaps| && j < |snaps[i].products|
  {
  }

  lemma {:induction false} StoredHolds(db: Db, snaps: seq<IslandSnapshot>, k: RowKey)
    ensures Holds(StoreAll(db, snaps).islands, snaps, db.samples, StoreAll(db, snaps).samples, k)
  {
    if snaps != [] {
      hide Holds, Lists, StoreOne;
      var init, s := snaps[..|snaps| - 1], snaps[|snaps| - 1];
      assert snaps == init + [s];
      StoredHolds(db, init, k);
      if n: nat :| Lists(StoreAll(db, snaps).islands, snaps, |init|, n, k) {
        HoldsLast(db, init, s, k, n);
      } else {
        HoldsStill(db, init, s, k);
      }
    }
  }

  /** After a batch: a row holds the last entry written to it, with its snapshot's game time, and a row that none was
      written to holds what it held. */
  lemma SampleRowIs(db: Db, snaps: seq<IslandSnapshot>, k: RowKey)
    ensures var after := Applied(db, Store(snaps));
      && (forall i: nat, j: nat :: ListedLast(after.islands, snaps, i, j, k) ==>
            k in after.samples && after.samples[k] == SampleRow(snaps[i].products[j], snaps[i].gameTimestamp))
      && ((forall i: nat, j: nat :: !Lists(after.islands, snaps, i, j, k)) ==>
            (k in after.samples <==> k in db.samples) && (k in db.samples ==> after.samples[k] == db.samples[k]))
  {
    hide StoreAll;
    StoredHolds(db, snaps, k);
    NothingHolds(db, snaps);
  }

  lemma NothingHolds(db: Db, snaps: seq<IslandSnapshot>)
    ensures snaps == [] ==> StoreAll(db, snaps) == db
  {
  }
}
