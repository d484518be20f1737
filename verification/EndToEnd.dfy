/** From the rule engine to the alert table: once everything is written, the open rows are the active alerts. */
module EndToEnd {
  import opened Model
  import opened Sorting
  import opened AlertRules
  import opened AlertRuns
  import AlertEvents
  import opened HistoryTables
  import opened BatchLog

  // --- the alert table, entry by entry ---

  /** What an entry does to islands and alerts. */
  function Enter(db: Db, e: Entry): Db {
    match e
    case Kept(s) => UpsertIsland(db, s.key, s.name, Millis(s.receivedAt))
    case Alerted(event) => if event.kind == Raised then RaiseRow(db, event.alert) else ClearRow(db, event.alert)
    case _ => db
  }

  function EnterAll(db: Db, entries: seq<Entry>): Db {
    if entries == [] then db else Enter(EnterAll(db, entries[..|entries| - 1]), entries[|entries| - 1])
  }

  /** Islands and alerts only. */
  function Bare(db: Db): Db { db.(samples := map[], sessions := [], lastSample := 0) }

  lemma {:induction false} EnterJoin(db: Db, a: seq<Entry>, b: seq<Entry>)
    ensures EnterAll(db, a + b) == EnterAll(EnterAll(db, a), b)
  {
    hide Enter;
    if b == [] {
      assert a + b == a;
    } else {
      assert (a + b)[..|a + b| - 1] == a + b[..|b| - 1];
      EnterJoin(db, a, b[..|b| - 1]);
    }
  }

  lemma {:induction false} StoreIsEntered(db: Db, snaps: seq<IslandSnapshot>)
    ensures Bare(StoreAll(db, snaps)) == EnterAll(Bare(db), Keeps(snaps))
  {
    if snaps != [] {
      StoreIsEntered(db, snaps[..|snaps| - 1]);
      assert Keeps(snaps)[..|snaps| - 1] == Keeps(snaps[..|snaps| - 1]);
    }
  }

  lemma OpIsEntered(db: Db, op: Op)
    ensures Bare(Applied(db, op)) == EnterAll(Bare(db), EntriesOf(op))
  {
    if op.Store? {
      hide StoreAll, EnterAll;
      StoreIsEntered(db, op.snaps);
      NothingEntered(Bare(db));
      assert op.snaps == [] ==> Keeps(op.snaps) == [];
    } else {
      assert EntriesOf(op)[..0] == [];
    }
  }

  lemma NothingEntered(db: Db)
    ensures EnterAll(db, []) == db
  {
  }

  /** Batching does not show: a log without failures leaves what its entries one by one leave. */
  lemma {:induction false} ReplayIsEntered(start: Db, log: seq<Attempt>)
    requires AllOk(log)
    ensures Bare(Replay(start, log)) == EnterAll(Bare(start), Flat(log))
  {
    if log != [] {
      hide Applied, EnterAll, EntriesOf;
      var init, a := log[..|log| - 1], log[|log| - 1];
      assert a in log && forall x :: x in init ==> x in log;
      ReplayIsEntered(start, init);
      OpIsEntered(Replay(start, init), a.op);
      EnterJoin(Bare(start), Flat(init), EntriesOf(a.op));
    } else {
      NothingEntered(Bare(start));
    }
  }

  // --- rows and keys ---

  type Islands = map<IslandKey, IslandRow>

  ghost function Ids(islands: Islands): set<RowId> { set k | k in islands :: islands[k].id }

  ghost predicate IdsFit(islands: Islands) {
    && (forall k :: k in islands ==> 1 <= islands[k].id <= |islands|)
    && (forall k, l :: k in islands && l in islands && k != l ==> islands[k].id != islands[l].id)
  }

  /** Every island has its own row id, and every alert row belongs to an island. */
  ghost predicate WellFormed(db: Db) {
    IdsFit(db.islands) && forall row :: row in db.alerts ==> row.island in Ids(db.islands)
  }

  function OpenAmong(rows: seq<AlertRow>, island: RowId, guid: int32, rule: Rule): seq<AlertRow> {
    if rows == [] then []
    else
      OpenAmong(rows[..|rows| - 1], island, guid, rule)
      + if IsOpen(rows[|rows| - 1], island, guid, rule) then [rows[|rows| - 1]] else []
  }

  function OpenRows(db: Db, key: AlertKey): seq<AlertRow> {
    if key.island in db.islands then OpenAmong(db.alerts, db.islands[key.island].id, key.guid, key.rule) else []
  }

  lemma {:induction false} OpenAmongMembers(rows: seq<AlertRow>, island: RowId, guid: int32, rule: Rule)
    ensures forall r :: r in OpenAmong(rows, island, guid, rule) <==> r in rows && IsOpen(r, island, guid, rule)
  {
    if rows != [] {
      OpenAmongMembers(rows[..|rows| - 1], island, guid, rule);
      assert rows == rows[..|rows| - 1] + [rows[|rows| - 1]];
    }
  }

  lemma OpenAmongAdded(rows: seq<AlertRow>, row: AlertRow, island: RowId, guid: int32, rule: Rule)
    ensures OpenAmong(rows + [row], island, guid, rule)
         == OpenAmong(rows, island, guid, rule) + if IsOpen(row, island, guid, rule) then [row] else []
  {
    assert (rows + [row])[..|rows|] == rows;
  }

  lemma {:induction false} OpenAmongClosed(rows: seq<AlertRow>, i: RowId, g: int32, r: Rule, at: int, island: RowId, guid: int32, rule: Rule)
    ensures OpenAmong(CloseRows(rows, i, g, r, at), island, guid, rule)
         == if i == island && g == guid && r == rule then [] else OpenAmong(rows, island, guid, rule)
  {
    if rows != [] {
      var init := rows[..|rows| - 1];
      var last := rows[|rows| - 1];
      OpenAmongClosed(init, i, g, r, at, island, guid, rule);
      var row := if IsOpen(last, i, g, r) then last.(clearedAt := Some(at)) else last;
      assert CloseRows(rows, i, g, r, at) == CloseRows(init, i, g, r, at) + [row];
      assert rows == init + [last];
      hide CloseRows;
      OpenAmongAdded(CloseRows(init, i, g, r, at), row, island, guid, rule);
      OpenAmongAdded(init, last, island, guid, rule);
      hide OpenAmong;
    }
  }

  lemma NewIdFits(islands: Islands, key: IslandKey, row: IslandRow)
    requires IdsFit(islands) && key !in islands && row.id == |islands| + 1
    ensures IdsFit(islands[key := row]) && Ids(islands) <= Ids(islands[key := row])
    ensures row.id !in Ids(islands)
  {
    var after := islands[key := row];
    assert |after| == |islands| + 1;
    assert forall k :: k in islands ==> after[k] == islands[k];
  }

  lemma SameIdFits(islands: Islands, key: IslandKey, row: IslandRow)
    requires IdsFit(islands) && key in islands && row.id == islands[key].id
    ensures IdsFit(islands[key := row]) && Ids(islands) <= Ids(islands[key := row])
  {
    var after := islands[key := row];
    assert after.Keys == islands.Keys && |after.Keys| == |islands.Keys|;
    assert forall k :: k in islands ==> after[k].id == islands[k].id;
  }

  lemma {:induction false} NoneOf(rows: seq<AlertRow>, island: RowId, guid: int32, rule: Rule)
    requires forall row :: row in rows ==> !IsOpen(row, island, guid, rule)
    ensures OpenAmong(rows, island, guid, rule) == []
  {
    if rows != [] {
      var init, last := rows[..|rows| - 1], rows[|rows| - 1];
      assert last in rows && forall row :: row in init ==> row in rows;
      NoneOf(init, island, guid, rule);
    }
  }

  /** A new island has a new id, so it brings no alerts with it and takes none away. */
  lemma UpsertKeepsRows(db: Db, island: IslandKey, name: seq<byte>, ts: int, key: AlertKey)
    requires WellFormed(db)
    ensures WellFormed(UpsertIsland(db, island, name, ts))
    ensures OpenRows(UpsertIsland(db, island, name, ts), key) == OpenRows(db, key)
  {
    hide IdsFit, Ids, OpenAmong;
    var after := UpsertIsland(db, island, name, ts);
    if island in db.islands {
      SameIdFits(db.islands, island, after.islands[island]);
    } else {
      NewIdFits(db.islands, island, after.islands[island]);
      NoneOf(db.alerts, |db.islands| + 1, key.guid, key.rule);
    }
  }

  lemma RaiseAddsRow(db: Db, a: Alert, key: AlertKey)
    requires WellFormed(db)
    ensures WellFormed(RaiseRow(db, a))
    ensures var row := AlertRow(RaiseRow(db, a).islands[a.island].id, a.guid, a.rule, a.severity, Millis(a.raisedAt), None);
      OpenRows(RaiseRow(db, a), key) == OpenRows(db, key) + if key == KeyOf(a) then [row] else []
  {
    var known := if a.island in db.islands then db else UpsertIsland(db, a.island, a.islandName, Millis(a.raisedAt));
    UpsertKeepsRows(db, a.island, a.islandName, Millis(a.raisedAt), key);
    var row := AlertRow(known.islands[a.island].id, a.guid, a.rule, a.severity, Millis(a.raisedAt), None);
    hide UpsertIsland;
    assert a.island in known.islands;
    RowAppended(known, row, a.island, key);
  }

  lemma RowAppended(db: Db, row: AlertRow, island: IslandKey, key: AlertKey)
    requires WellFormed(db) && island in db.islands && row.island == db.islands[island].id && row.clearedAt.None?
    ensures WellFormed(db.(alerts := db.alerts + [row]))
    ensures OpenRows(db.(alerts := db.alerts + [row]), key)
         == OpenRows(db, key) + if key == AlertKey(island, row.guid, row.rule) then [row] else []
  {
    hide OpenAmong;
    if key.island in db.islands {
      OpenAmongAdded(db.alerts, row, db.islands[key.island].id, key.guid, key.rule);
    }
  }

  lemma ClearClosesRows(db: Db, a: Alert, key: AlertKey)
    requires WellFormed(db)
    ensures WellFormed(ClearRow(db, a))
    ensures OpenRows(ClearRow(db, a), key) == if key == KeyOf(a) then [] else OpenRows(db, key)
  {
    hide OpenAmong, Ids;
    if a.island in db.islands {
      var id, at := db.islands[a.island].id, Millis(a.clearedAt);
      var rows := CloseRows(db.alerts, id, a.guid, a.rule, at);
      assert forall i :: 0 <= i < |rows| ==> rows[i].island == db.alerts[i].island && db.alerts[i] in db.alerts;
      if key.island in db.islands {
        OpenAmongClosed(db.alerts, id, a.guid, a.rule, at, db.islands[key.island].id, key.guid, key.rule);
      }
    }
  }

  // --- rows follow the event stream ---

  /** What the open rows of a key must be when its event stream has come this far. */
  ghost predicate RowsMatch(db: Db, key: AlertKey, m: Monitor) {
    match m
    case Quiet => OpenRows(db, key) == []
    case Open(raisedAt) => |OpenRows(db, key)| == 1 && OpenRows(db, key)[0].raisedAt == Millis(raisedAt)
    case Broken => true
  }

  function AlertsIn(entries: seq<Entry>): seq<Event> {
    if entries == [] then []
    else AlertsIn(entries[..|entries| - 1]) + match entries[|entries| - 1] case Alerted(e) => [e] case _ => []
  }

  lemma EnterMatches(db: Db, e: Entry, key: AlertKey, m: Monitor)
    requires WellFormed(db) && RowsMatch(db, key, m)
    ensures WellFormed(Enter(db, e))
    ensures RowsMatch(Enter(db, e), key, if e.Alerted? && EventKey(e.event) == key then Hear(m, e.event) else m)
  {
    hide WellFormed, OpenRows, UpsertIsland, RaiseRow, ClearRow;
    match e
    case Kept(s) => UpsertKeepsRows(db, s.key, s.name, Millis(s.receivedAt), key);
    case Alerted(event) =>
      RaiseAddsRow(db, event.alert, key);
      ClearClosesRows(db, event.alert, key);
    case _ =>
  }

  lemma {:induction false} EntriesMatch(start: Db, entries: seq<Entry>, key: AlertKey)
    requires WellFormed(start) && OpenRows(start, key) == []
    ensures WellFormed(EnterAll(start, entries))
    ensures RowsMatch(EnterAll(start, entries), key, HearAll(Quiet, ByKey(AlertsIn(entries), EventKey, key)))
  {
    hide WellFormed, OpenRows, Enter, Hear;
    if entries != [] {
      var init, e := entries[..|entries| - 1], entries[|entries| - 1];
      EntriesMatch(start, init, key);
      EnterMatches(EnterAll(start, init), e, key, HearAll(Quiet, ByKey(AlertsIn(init), EventKey, key)));
      if e.Alerted? {
        HearKeyAppend(Quiet, AlertsIn(init), [e.event], key);
        HearOne(HearAll(Quiet, ByKey(AlertsIn(init), EventKey, key)), e.event, key);
      } else {
        assert AlertsIn(init) + [] == AlertsIn(init);
      }
    }
  }

  // --- what is handed to the history ---

  /** A snapshot goes to the history before the engine sees it; a session boundary resets the engine. */
  ghost predicate Heads(inputs: seq<Input>, heads: seq<Record>) {
    && |heads| == |inputs|
    && forall i :: 0 <= i < |inputs| ==>
         match inputs[i]
         case Apply(s) => heads[i] == Snapshot(s)
         case Reset(_) => heads[i].SessionStart? || heads[i].SessionEnd?
  }

  function AlertRecords(events: seq<Event>): seq<Record> {
    seq(|events|, i requires 0 <= i < |events| => AlertRecord(events[i]))
  }

  /** Everything handed to the history, in order: each input followed by the events it caused. */
  function Feed(heads: seq<Record>, outputs: seq<seq<Event>>): seq<Record>
    requires |heads| == |outputs|
  {
    if heads == [] then []
    else
      Feed(heads[..|heads| - 1], outputs[..|heads| - 1]) + ([heads[|heads| - 1]] + AlertRecords(outputs[|heads| - 1]))
  }

  lemma {:induction false} AlertsJoin(a: seq<Record>, b: seq<Record>)
    ensures AlertsOf(a + b) == AlertsOf(a) + AlertsOf(b)
  {
    if b == [] {
      assert a + b == a;
    } else {
      assert (a + b)[..|a + b| - 1] == a + b[..|b| - 1];
      AlertsJoin(a, b[..|b| - 1]);
    }
  }

  lemma {:induction false} AlertsOfRecords(events: seq<Event>)
    ensures AlertsOf(AlertRecords(events)) == events
  {
    if events != [] {
      AlertsOfRecords(events[..|events| - 1]);
      assert AlertRecords(events)[..|events| - 1] == AlertRecords(events[..|events| - 1]);
    }
  }

  lemma {:induction false} FeedCarriesStream(heads: seq<Record>, outputs: seq<seq<Event>>)
    requires |heads| == |outputs| && forall h :: h in heads ==> !h.AlertRecord?
    ensures AlertsOf(Feed(heads, outputs)) == Stream(outputs)
  {
    if heads != [] {
      var last := |heads| - 1;
      FeedCarriesStream(heads[..last], outputs[..last]);
      AlertsJoin(Feed(heads[..last], outputs[..last]), [heads[last]] + AlertRecords(outputs[last]));
      AlertsJoin([heads[last]], AlertRecords(outputs[last]));
      AlertsOfRecords(outputs[last]);
      assert [heads[last]][..0] == [];
    }
  }

  lemma AlertsInJoin(a: seq<Entry>, b: seq<Entry>)
    ensures AlertsIn(a + b) == AlertsIn(a) + AlertsIn(b)
    decreases |b|
  {
    if b == [] {
      assert a + b == a;
    } else {
      assert (a + b)[..|a + b| - 1] == a + b[..|b| - 1];
      AlertsInJoin(a, b[..|b| - 1]);
    }
  }

  lemma {:induction false} EffectsCarryAlerts(records: seq<Record>)
    ensures AlertsIn(Effects(records).0) == AlertsOf(records)
  {
    if records != [] {
      var (before, up) := Effects(records[..|records| - 1]);
      var last := records[|records| - 1];
      EffectsCarryAlerts(records[..|records| - 1]);
      hide AlertsIn, EffectOf;
      AlertsInJoin(before, EffectOf(last, up).0);
      EffectCarriesAlert(last, up);
    } else {
      assert AlertsIn([]) == [];
    }
  }

  lemma EffectCarriesAlert(r: Record, up: bool)
    ensures AlertsIn(EffectOf(r, up).0) == match r case AlertRecord(e) => [e] case _ => []
  {
    match r
    case SessionStart(headline, at, version) =>
      AlertsInJoin(if up then [Ended(at)] else [], [Began(at, version, headline)]);
    case _ =>
  }

  lemma {:induction false} KeepsCarryNoAlert(snaps: seq<IslandSnapshot>)
    ensures AlertsIn(Keeps(snaps)) == []
  {
    if snaps != [] {
      KeepsCarryNoAlert(snaps[..|snaps| - 1]);
      assert Keeps(snaps)[..|snaps| - 1] == Keeps(snaps[..|snaps| - 1]);
    }
  }

  /** The end of the session still running when the writer stopped, if it has. */
  function ClosingEntries(closed: Option<Time>): seq<Entry> { match closed case None => [] case Some(at) => [Ended(at)] }

  lemma SameAlerts(log: seq<Entry>, pending: seq<IslandSnapshot>, effects: seq<Entry>, closed: Option<Time>)
    requires log + Keeps(pending) == effects + ClosingEntries(closed)
    ensures AlertsIn(log) == AlertsIn(effects)
  {
    AlertsInJoin(log, Keeps(pending));
    KeepsCarryNoAlert(pending);
    AlertsInJoin(effects, ClosingEntries(closed));
    assert AlertsIn(ClosingEntries(closed)) == [];
  }

  // --- the theorem ---

  ghost predicate NoOpenRows(db: Db) {
    forall row :: row in db.alerts ==> row.clearedAt.Some?
  }

  lemma NoneOpen(db: Db, key: AlertKey)
    requires NoOpenRows(db)
    ensures OpenRows(db, key) == []
  {
    if key.island in db.islands {
      NoneOf(db.alerts, db.islands[key.island].id, key.guid, key.rule);
    }
  }

  /** A database without open alerts in which all writes have succeeded since: they are, in order, what these records
      mean, except for the snapshots still pending, and the end of the running session if the writer has stopped. */
  ghost predicate Written(records: seq<Record>, start: Db, log: seq<Attempt>, pending: seq<IslandSnapshot>, closed: Option<Time>) {
    && WellFormed(start) && NoOpenRows(start)
    && AllOk(log)
    && Flat(log) + Keeps(pending) == Effects(records).0 + ClosingEntries(closed)
  }

  /** The open rows follow the alert events among the records. */
  lemma WrittenMatches(records: seq<Record>, start: Db, log: seq<Attempt>, pending: seq<IslandSnapshot>, closed: Option<Time>,
                       key: AlertKey)
    requires Written(records, start, log, pending, closed)
    ensures WellFormed(Replay(start, log))
    ensures RowsMatch(Replay(start, log), key, HearAll(Quiet, ByKey(AlertsOf(records), EventKey, key)))
  {
    hide Replay, Flat, EnterAll, HearAll, Effects, AlertsIn, AlertsOf, WellFormed, OpenRows, Bare, AllOk, ByKey,
      NoOpenRows, Keeps, ClosingEntries;
    NoneOpen(start, key);
    ReplayIsEntered(start, log);
    BareSame(start, key);
    BareSame(Replay(start, log), key);
    EntriesMatch(Bare(start), Flat(log), key);
    SameAlerts(Flat(log), pending, Effects(records).0, closed);
    EffectsCarryAlerts(records);
  }

  lemma BareSame(db: Db, key: AlertKey)
    ensures OpenRows(Bare(db), key) == OpenRows(db, key)
    ensures WellFormed(Bare(db)) <==> WellFormed(db)
  {
  }

  /** The open rows of a key show its active alert: none if it has none, else one row with the time it was raised. */
  predicate Shows(rows: seq<AlertRow>, own: seq<Alert>) {
    if own == [] then rows == []
    else |own| == 1 && |rows| == 1 && rows[0].raisedAt == Millis(own[0].raisedAt)
  }

  lemma ShowsOpen(db: Db, key: AlertKey, st: EngineState, active: seq<Alert>)
    requires RowsMatch(db, key, MonitorOf(OpenAlert(st, key))) && ListsActive(st, active)
    ensures Shows(OpenRows(db, key), ByKey(active, KeyOf, key))
  {
    assert ByKey(active, KeyOf, key) == OpenList(st, key);
    hide OpenRows, OpenAlert, ByKey;
  }

  /** The open rows follow the run: one with the time of the raise while the key's alert is open, none otherwise. */
  lemma OpenRowsMatch(cfg: Config, inputs: seq<Input>, outputs: seq<seq<Event>>, heads: seq<Record>, start: Db,
                      log: seq<Attempt>, pending: seq<IslandSnapshot>, closed: Option<Time>, key: AlertKey)
    requires IsRun(cfg, inputs, outputs) && Heads(inputs, heads) && |outputs| == |heads|
    requires Written(Feed(heads, outputs), start, log, pending, closed)
    ensures RowsMatch(Replay(start, log), key, MonitorOf(OpenAlert(StateAfter(cfg, inputs), key)))
  {
    FeedCarriesStream(heads, outputs);
    hide Written, IsRun, OpenRows, OpenAlert, StateAfter, HearAll, Feed, Heads, ByKey, Replay, WellFormed, RowsMatch;
    WrittenMatches(Feed(heads, outputs), start, log, pending, closed, key);
    RunHeard(cfg, inputs, outputs, key);
  }

  /** With nothing refused and no write failing, once every record is taken the open rows of the alert table are
      exactly the active alerts, one row per (island, product, rule), with the time the alert was raised: at any such
      moment, whatever snapshots are pending, a session running or the writer stopped. */
  lemma OpenRowsAreActive(cfg: Config, inputs: seq<Input>, outputs: seq<seq<Event>>, heads: seq<Record>, start: Db,
                          log: seq<Attempt>, pending: seq<IslandSnapshot>, closed: Option<Time>, active: seq<Alert>, key: AlertKey)
    requires IsRun(cfg, inputs, outputs) && Heads(inputs, heads) && |outputs| == |heads|
    requires Written(Feed(heads, outputs), start, log, pending, closed)
    requires ListsActive(StateAfter(cfg, inputs), active)
    ensures Shows(OpenRows(Replay(start, log), key), ByKey(active, KeyOf, key))
  {
    hide Written, IsRun, OpenRows, OpenAlert, StateAfter, Feed, Heads, ByKey, ListsActive, Replay, Shows, RowsMatch;
    OpenRowsMatch(cfg, inputs, outputs, heads, start, log, pending, closed, key);
    ShowsOpen(Replay(start, log), key, StateAfter(cfg, inputs), active);
  }

  /** And no open row belongs to anything else. */
  lemma OpenRowIsActive(cfg: Config, inputs: seq<Input>, outputs: seq<seq<Event>>, heads: seq<Record>, start: Db,
                        log: seq<Attempt>, pending: seq<IslandSnapshot>, closed: Option<Time>, row: AlertRow)
    returns (key: AlertKey)
    requires IsRun(cfg, inputs, outputs) && Heads(inputs, heads) && |outputs| == |heads|
    requires Written(Feed(heads, outputs), start, log, pending, closed)
    requires row in Replay(start, log).alerts && row.clearedAt.None?
    ensures OpenAlert(StateAfter(cfg, inputs), key).Some? && row in OpenRows(Replay(start, log), key)
  {
    hide IsRun, StateAfter, HearAll, Written, Feed;
    var db := Replay(start, log);
    FeedCarriesStream(heads, outputs);
    WrittenMatches(Feed(heads, outputs), start, log, pending, closed, AlertKey(IslandKey(0, 0), 0, Deficit));
    assert row.island in Ids(db.islands);
    var island :| island in db.islands && db.islands[island].id == row.island;
    key := AlertKey(island, row.guid, row.rule);
    OpenAmongMembers(db.alerts, row.island, row.guid, row.rule);
    WrittenMatches(Feed(heads, outputs), start, log, pending, closed, key);
    RunHeard(cfg, inputs, outputs, key);
  }

  // --- an alert's island is always there before it ---

  /** Every raised alert comes after a kept snapshot of its island. */
  ghost predicate IslandsFirst(entries: seq<Entry>) {
    forall i :: 0 <= i < |entries| && entries[i].Alerted? && entries[i].event.kind == Raised ==>
      exists j :: 0 <= j < i && entries[j].Kept? && entries[j].snap.key == entries[i].event.alert.island
  }

  lemma {:induction false} KeptIsKnown(start: Db, entries: seq<Entry>, j: nat)
    requires j < |entries| && entries[j].Kept?
    ensures entries[j].snap.key in EnterAll(start, entries).islands
  {
    var init := entries[..|entries| - 1];
    if j < |init| { KeptIsKnown(start, init, j); }
  }

  function Alerteds(events: seq<Event>): seq<Entry> {
    seq(|events|, i requires 0 <= i < |events| => Alerted(events[i]))
  }

  lemma {:induction false} EffectsOfAlerts(records: seq<Record>, events: seq<Event>)
    ensures Effects(records + AlertRecords(events)) == (Effects(records).0 + Alerteds(events), Effects(records).1)
  {
    var all := records + AlertRecords(events);
    if events == [] {
      assert all == records;
      assert Effects(records).0 + Alerteds(events) == Effects(records).0;
    } else {
      var init, last := events[..|events| - 1], events[|events| - 1];
      EffectsOfAlerts(records, init);
      assert all[..|all| - 1] == records + AlertRecords(init) && all[|all| - 1] == AlertRecord(last);
      assert Alerteds(events) == Alerteds(init) + [Alerted(last)];
      assert Effects(records).0 + Alerteds(init) + [Alerted(last)] == Effects(records).0 + Alerteds(events);
    }
  }

  lemma IslandsFirstGrows(entries: seq<Entry>, more: seq<Entry>)
    requires IslandsFirst(entries)
    requires forall i :: 0 <= i < |more| && more[i].Alerted? && more[i].event.kind == Raised ==>
      i > 0 && more[0].Kept? && more[0].snap.key == more[i].event.alert.island
    ensures IslandsFirst(entries + more)
  {
    var all := entries + more;
    forall i | 0 <= i < |all| && all[i].Alerted? && all[i].event.kind == Raised
      ensures exists j :: 0 <= j < i && all[j].Kept? && all[j].snap.key == all[i].event.alert.island
    {
      if i < |entries| {
        var j :| 0 <= j < i && entries[j].Kept? && entries[j].snap.key == entries[i].event.alert.island;
        assert all[j] == entries[j];
      } else {
        assert all[i] == more[i - |entries|] && all[|entries|] == more[0];
      }
    }
  }

  lemma ResetOnlyClears(cfg: Config, inputs: seq<Input>, outputs: seq<seq<Event>>, i: nat, e: Event)
    requires IsRun(cfg, inputs, outputs) && i < |inputs| && e in outputs[i] && inputs[i].Reset?
    ensures e.kind == Cleared
  {
    hide StateAfter;
    ByKeyMembers(outputs[i], EventKey, EventKey(e));
    assert e in KeyEvents(cfg, StateAfter(cfg, inputs[..i]), inputs[i], EventKey(e));
  }

  /** A snapshot raises alerts of its own island only; a reset raises none. */
  lemma RaisesWhereItIs(cfg: Config, inputs: seq<Input>, outputs: seq<seq<Event>>, i: nat, e: Event)
    requires IsRun(cfg, inputs, outputs) && i < |inputs| && e in outputs[i]
    ensures e.kind == Raised ==> inputs[i].Apply? && e.alert.island == inputs[i].snap.key
  {
    hide StateAfter, IsRun;
    if inputs[i].Apply? {
      AlertEvents.EventsAreCurrent(cfg, inputs, outputs, i, e);
    } else {
      ResetOnlyClears(cfg, inputs, outputs, i, e);
    }
  }

  /** What one input and its events mean to the history. */
  function StepEntries(head: Record, up: bool, events: seq<Event>): seq<Entry> {
    EffectOf(head, up).0 + Alerteds(events)
  }

  lemma EffectsGrow(records: seq<Record>, r: Record)
    ensures var (before, up) := Effects(records);
      Effects(records + [r]) == (before + EffectOf(r, up).0, EffectOf(r, up).1)
  {
    assert (records + [r])[..|records|] == records;
  }

  lemma Regroup(a: seq<Entry>, b: seq<Entry>, c: seq<Entry>)
    ensures (a + b) + c == a + (b + c)
  {
  }

  lemma FeedEffects(heads: seq<Record>, outputs: seq<seq<Event>>)
    requires |heads| == |outputs| && heads != []
    ensures
      var last := |heads| - 1;
      var (before, up) := Effects(Feed(heads[..last], outputs[..last]));
      Effects(Feed(heads, outputs)).0 == before + StepEntries(heads[last], up, outputs[last])
  {
    hide Effects, EffectOf, Alerteds, AlertRecords;
    var last := |heads| - 1;
    var before := Feed(heads[..last], outputs[..last]);
    assert Feed(heads, outputs) == before + [heads[last]] + AlertRecords(outputs[last]);
    hide Feed;
    EffectsGrow(before, heads[last]);
    EffectsOfAlerts(before + [heads[last]], outputs[last]);
    Regroup(Effects(before).0, EffectOf(heads[last], Effects(before).1).0, Alerteds(outputs[last]));
  }

  lemma StepIslandFirst(cfg: Config, inputs: seq<Input>, outputs: seq<seq<Event>>, heads: seq<Record>, up: bool, i: nat, n: nat)
    requires IsRun(cfg, inputs, outputs) && Heads(inputs, heads) && i < |inputs| && |outputs| == |inputs|
    requires n < |StepEntries(heads[i], up, outputs[i])|
    ensures var more := StepEntries(heads[i], up, outputs[i]);
      more[n].Alerted? && more[n].event.kind == Raised ==>
        n > 0 && more[0].Kept? && more[0].snap.key == more[n].event.alert.island
  {
    hide IsRun;
    var more := StepEntries(heads[i], up, outputs[i]);
    var head := EffectOf(heads[i], up).0;
    if n >= |head| {
      RaisesWhereItIs(cfg, inputs, outputs, i, outputs[i][n - |head|]);
    }
  }

  lemma {:induction false} RunIslandsFirst(cfg: Config, inputs: seq<Input>, outputs: seq<seq<Event>>, heads: seq<Record>)
    requires IsRun(cfg, inputs, outputs) && Heads(inputs, heads)
    ensures |outputs| == |heads|
    ensures IslandsFirst(Effects(Feed(heads, outputs)).0)
  {
    assert |outputs| == |inputs|;
    if heads != [] {
      hide IsRun, Effects, Feed, StepEntries;
      var last := |heads| - 1;
      RunPrefix(cfg, inputs, outputs, last);
      RunIslandsFirst(cfg, inputs[..last], outputs[..last], heads[..last]);
      FeedEffects(heads, outputs);
      var (before, up) := Effects(Feed(heads[..last], outputs[..last]));
      forall n | 0 <= n < |StepEntries(heads[last], up, outputs[last])|
        ensures var more := StepEntries(heads[last], up, outputs[last]);
          more[n].Alerted? && more[n].event.kind == Raised ==>
            n > 0 && more[0].Kept? && more[0].snap.key == more[n].event.alert.island
      {
        StepIslandFirst(cfg, inputs, outputs, heads, up, last, n);
      }
      IslandsFirstGrows(before, StepEntries(heads[last], up, outputs[last]));
    }
  }

  lemma {:induction false} EffectsPrefix(a: seq<Record>, b: seq<Record>)
    ensures Effects(a).0 <= Effects(a + b).0
  {
    if b == [] {
      assert a + b == a;
    } else {
      assert (a + b)[..|a + b| - 1] == a + b[..|b| - 1];
      EffectsPrefix(a, b[..|b| - 1]);
    }
  }

  lemma {:induction false} FlatPrefix(log: seq<Attempt>, n: nat)
    requires n <= |log|
    ensures Flat(log[..n]) <= Flat(log)
  {
    if n < |log| {
      FlatPrefix(log[..|log| - 1], n);
      assert log[..|log| - 1][..n] == log[..n];
    } else {
      assert log[..n] == log;
    }
  }

  lemma FlatAt(log: seq<Attempt>, i: nat)
    requires i < |log| && log[i].op.Raise?
    ensures var k := |Flat(log[..i])|;
      && Flat(log[..i]) <= Flat(log)
      && k < |Flat(log)| && Flat(log)[k] == Alerted(Event(Raised, log[i].op.raised))
  {
    FlatPrefix(log, i);
    FlatPrefix(log, i + 1);
    assert log[..i + 1][..i] == log[..i];
    assert Flat(log[..i + 1]) == Flat(log[..i]) + [Alerted(Event(Raised, log[i].op.raised))];
    hide Flat;
  }

  /** Before a raise in the log come all earlier entries, among them a snapshot of its island. */
  lemma RaiseAfterIsland(log: seq<Attempt>, pending: seq<IslandSnapshot>, effects: seq<Entry>, closed: Option<Time>, i: nat)
    returns (j: nat)
    requires Flat(log) + Keeps(pending) == effects + ClosingEntries(closed) && IslandsFirst(effects)
    requires i < |log| && log[i].op.Raise?
    ensures j < |Flat(log[..i])| && Flat(log[..i])[j].Kept? && Flat(log[..i])[j].snap.key == log[i].op.raised.island
  {
    FlatAt(log, i);
    var k := |Flat(log[..i])|;
    assert forall e :: e in ClosingEntries(closed) ==> !e.Alerted?;
    hide Flat, Keeps, ClosingEntries;
    assert (Flat(log) + Keeps(pending))[k] == Flat(log)[k];
    assert k < |effects|;
    assert effects[k] == Flat(log)[k];
    j :| 0 <= j < k && effects[j].Kept? && effects[j].snap.key == effects[k].event.alert.island;
    assert (effects + ClosingEntries(closed))[j] == effects[j] && (Flat(log) + Keeps(pending))[j] == Flat(log)[j];
  }

  /** Whenever the writer raises an alert, whatever records it has taken so far: the island's row is already in the
      database. */
  lemma RaiseFindsIsland(cfg: Config, inputs: seq<Input>, outputs: seq<seq<Event>>, heads: seq<Record>, taken: seq<Record>,
                         start: Db, log: seq<Attempt>, pending: seq<IslandSnapshot>, closed: Option<Time>, i: nat)
    requires IsRun(cfg, inputs, outputs) && Heads(inputs, heads) && |outputs| == |heads|
    requires taken <= Feed(heads, outputs) && Written(taken, start, log, pending, closed)
    requires i < |log| && log[i].op.Raise?
    ensures log[i].op.raised.island in Replay(start, log[..i]).islands
  {
    hide Effects, Feed, IsRun, EnterAll, Flat, Keeps, ClosingEntries, Replay, WellFormed, NoOpenRows;
    var all := Feed(heads, outputs);
    RunIslandsFirst(cfg, inputs, outputs, heads);
    assert taken + all[|taken|..] == all;
    EffectsPrefix(taken, all[|taken|..]);
    var effects := Effects(taken).0;
    assert IslandsFirst(effects) by {
      assert forall n :: 0 <= n < |effects| ==> effects[n] == Effects(all).0[n];
    }
    var j := RaiseAfterIsland(log, pending, effects, closed, i);
    assert forall a :: a in log[..i] ==> a in log;
    ReplayIsEntered(start, log[..i]);
    KeptIsKnown(Bare(start), Flat(log[..i]), j);
  }
}
