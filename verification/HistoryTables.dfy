/** The history database: islands, samples, game sessions and alerts, and the writes that change them.
    A write is a transaction: it happens as a whole or not at all. */
module HistoryTables {
  import opened Model
  import opened AlertRules
  import opened Compaction

  datatype IslandRow = IslandRow(id: RowId, name: seq<byte>, firstSeen: int, lastSeen: int)

  /** A sample row holds the entry it was written from. */
  datatype SampleRow = SampleRow(entry: ProductStat, gameTs: int64)

  datatype SessionRow = SessionRow(startedAt: int, endedAt: Option<int>, version: int32, headline: seq<byte>)

  datatype AlertRow = AlertRow(island: RowId, guid: int32, rule: Rule, severity: Severity, raisedAt: int, clearedAt: Option<int>)

  datatype Db = Db(
    islands: map<IslandKey, IslandRow>,
    samples: map<RowKey, SampleRow>,
    sessions: seq<SessionRow>,
    alerts: seq<AlertRow>,
    lastSample: int)

  /** The writes the history makes. */
  datatype Op =
    | Store(snaps: seq<IslandSnapshot>)
    | Begin(start: Time, version: int32, headline: seq<byte>)
    | Finish(id: RowId, end: Time)
    | Raise(raised: Alert)
    | Clear(cleared: Alert)

  // --- islands and samples ---

  /** Row ids count up from one: no row of these tables is ever deleted. */
  function NextIslandId(db: Db): RowId { |db.islands| + 1 }

  /** The island's row, created on first sight; a later sighting takes over the name and never goes back in time. */
  function UpsertIsland(db: Db, key: IslandKey, name: seq<byte>, ts: int): Db {
    var row :=
      if key in db.islands then
        db.islands[key].(name := name, lastSeen := Max(db.islands[key].lastSeen, ts))
      else IslandRow(NextIslandId(db), name, ts, ts);
    db.(islands := db.islands[key := row])
  }

  /** INSERT OR REPLACE, one entry after the other. */
  function ReplaceAll(samples: map<RowKey, SampleRow>, island: RowId, ts: int, entries: seq<ProductStat>, gameTs: int64)
    : map<RowKey, SampleRow>
  {
    if entries == [] then samples
    else
      var last := entries[|entries| - 1];
      ReplaceAll(samples, island, ts, entries[..|entries| - 1], gameTs)
        [RowKey(island, last.guid, ts) := SampleRow(last, gameTs)]
  }

  function StoreOne(db: Db, s: IslandSnapshot): Db {
    var ts := Millis(s.receivedAt);
    var seen := UpsertIsland(db, s.key, s.name, ts);
    seen.(samples := ReplaceAll(seen.samples, seen.islands[s.key].id, ts, s.products, s.gameTimestamp))
  }

  function StoreAll(db: Db, snaps: seq<IslandSnapshot>): Db {
    if snaps == [] then db else StoreOne(StoreAll(db, snaps[..|snaps| - 1]), snaps[|snaps| - 1])
  }

  /** The newest receive time among snapshots, at least zero. */
  function Newest(snaps: seq<IslandSnapshot>): int {
    if snaps == [] then 0 else Max(Newest(snaps[..|snaps| - 1]), Millis(snaps[|snaps| - 1].receivedAt))
  }

  /** Only a stored batch moves the time of the last sample, and only forward. */
  function StoreBatch(db: Db, snaps: seq<IslandSnapshot>): Db {
    if snaps == [] then db
    else StoreAll(db, snaps).(lastSample := Max(db.lastSample, Newest(snaps)))
  }

  // --- alerts ---

  predicate IsOpen(row: AlertRow, island: RowId, guid: int32, rule: Rule) {
    row.clearedAt.None? && row.island == island && row.guid == guid && row.rule == rule
  }

  function CloseRows(rows: seq<AlertRow>, island: RowId, guid: int32, rule: Rule, at: int): seq<AlertRow> {
    seq(|rows|, i requires 0 <= i < |rows| =>
      if IsOpen(rows[i], island, guid, rule) then rows[i].(clearedAt := Some(at)) else rows[i])
  }

  function RaiseRow(db: Db, a: Alert): Db {
    var known := if a.island in db.islands then db else UpsertIsland(db, a.island, a.islandName, Millis(a.raisedAt));
    known.(alerts := known.alerts + [AlertRow(known.islands[a.island].id, a.guid, a.rule, a.severity, Millis(a.raisedAt), None)])
  }

  function ClearRow(db: Db, a: Alert): Db {
    if a.island !in db.islands then db
    else db.(alerts := CloseRows(db.alerts, db.islands[a.island].id, a.guid, a.rule, Millis(a.clearedAt)))
  }

  // --- sessions ---

  /** Sessions are numbered from one; one that is closed, or does not exist, is left alone. */
  function EndRow(sessions: seq<SessionRow>, id: RowId, at: int): seq<SessionRow> {
    if 1 <= id <= |sessions| && sessions[id - 1].endedAt.None? then
      sessions[id - 1 := sessions[id - 1].(endedAt := Some(at))]
    else sessions
  }

  function Applied(db: Db, op: Op): Db {
    match op
    case Store(snaps) => StoreBatch(db, snaps)
    case Begin(at, version, headline) => db.(sessions := db.sessions + [SessionRow(Millis(at), None, version, headline)])
    case Finish(id, at) => db.(sessions := EndRow(db.sessions, id, Millis(at)))
    case Raise(a) => RaiseRow(db, a)
    case Clear(a) => ClearRow(db, a)
  }

  // --- the store ---

  class HistoryStore {
    var islands: map<IslandKey, IslandRow>
    var samples: map<RowKey, SampleRow>
    var sessions: seq<SessionRow>
    var alerts: seq<AlertRow>
    var lastSample: int

    function Contents(): Db
      reads this
    {
      Db(islands, samples, sessions, alerts, lastSample)
    }

    constructor ()
      ensures Contents() == Db(map[], map[], [], [], 0)
    {
      islands, samples, sessions, alerts, lastSample := map[], map[], [], [], 0;
    }

    method Upsert(key: IslandKey, name: seq<byte>, ts: int) returns (id: RowId)
      modifies this`islands
      ensures Contents() == UpsertIsland(old(Contents()), key, name, ts)
      ensures key in islands && id == islands[key].id
    {
      if key in islands {
        var row := islands[key];
        islands := islands[key := row.(name := name, lastSeen := Max(row.lastSeen, ts))];
      } else {
        islands := islands[key := IslandRow(|islands| + 1, name, ts, ts)];
      }
      id := islands[key].id;
    }

    method WriteOne(snap: IslandSnapshot)
      modifies this`islands, this`samples
      ensures Contents() == StoreOne(old(Contents()), snap)
    {
      var ts := Millis(snap.receivedAt);
      var id := Upsert(snap.key, snap.name, ts);
      ghost var before := samples;
      for i := 0 to |snap.products|
        invariant islands == UpsertIsland(old(Contents()), snap.key, snap.name, ts).islands
        invariant samples == ReplaceAll(before, id, ts, snap.products[..i], snap.gameTimestamp)
      {
        var p := snap.products[i];
        assert snap.products[..i + 1][..i] == snap.products[..i];
        samples := samples[RowKey(id, p.guid, ts) := SampleRow(p, snap.gameTimestamp)];
      }
      assert snap.products[..|snap.products|] == snap.products;
    }

    /** A batch of snapshots in one transaction. */
    method WriteSnapshots(snaps: seq<IslandSnapshot>) returns (ok: bool)
      modifies this
      ensures Contents() == if ok then Applied(old(Contents()), Store(snaps)) else old(Contents())
      ensures snaps == [] ==> ok
    {
      if snaps == [] {
        return true;
      }
      ok := *;
      if !ok {
        return;
      }
      hide StoreOne;
      var newest := 0;
      for i := 0 to |snaps|
        invariant lastSample == old(lastSample)
        invariant newest == Newest(snaps[..i])
        invariant Contents() == StoreAll(old(Contents()), snaps[..i])
      {
        assert snaps[..i + 1][..i] == snaps[..i];
        newest := Max(newest, Millis(snaps[i].receivedAt));
        WriteOne(snaps[i]);
      }
      assert snaps[..|snaps|] == snaps;
      if newest > lastSample {
        lastSample := newest;
      }
    }

    method StartSession(at: Time, version: int32, headline: seq<byte>) returns (id: RowId, ok: bool)
      modifies this`sessions
      ensures Contents() == if ok then Applied(old(Contents()), Begin(at, version, headline)) else old(Contents())
      ensures ok ==> id == |sessions|
    {
      ok := *;
      id := 0;
      if ok {
        sessions := sessions + [SessionRow(Millis(at), None, version, headline)];
        id := |sessions|;
      }
    }

    method EndSession(id: RowId, at: Time) returns (ok: bool)
      modifies this`sessions
      ensures Contents() == if ok then Applied(old(Contents()), Finish(id, at)) else old(Contents())
    {
      ok := *;
      if ok && 1 <= id <= |sessions| && sessions[id - 1].endedAt.None? {
        sessions := sessions[id - 1 := sessions[id - 1].(endedAt := Some(Millis(at)))];
      }
    }

    /** The id of the alert's island, whose row is made from the alert when it is missing. */
    method IslandRowId(a: Alert) returns (id: RowId)
      modifies this`islands
      ensures var before := old(Contents());
        Contents() == if a.island in before.islands then before
                      else UpsertIsland(before, a.island, a.islandName, Millis(a.raisedAt))
      ensures a.island in islands && id == islands[a.island].id
    {
      if a.island in islands {
        return islands[a.island].id;
      }
      id := Upsert(a.island, a.islandName, Millis(a.raisedAt));
    }

    method RaiseAlert(a: Alert) returns (ok: bool)
      modifies this`islands, this`alerts
      ensures Contents() == if ok then Applied(old(Contents()), Raise(a)) else old(Contents())
    {
      ok := *;
      if !ok {
        return;
      }
      var id := IslandRowId(a);
      alerts := alerts + [AlertRow(id, a.guid, a.rule, a.severity, Millis(a.raisedAt), None)];
    }

    method ClearAlert(a: Alert) returns (ok: bool)
      modifies this`alerts
      ensures Contents() == if ok then Applied(old(Contents()), Clear(a)) else old(Contents())
    {
      ok := *;
      if !ok || a.island !in islands {
        return;
      }
      alerts := CloseRows(alerts, islands[a.island].id, a.guid, a.rule, Millis(a.clearedAt));
    }

    /** Opening the database closes every alert the previous process left open, in one transaction. */
    method CloseOpenAlerts(at: Time) returns (ok: bool)
      modifies this`alerts
      ensures !ok ==> Contents() == old(Contents())
      ensures |alerts| == |old(alerts)|
      ensures ok ==> forall i :: 0 <= i < |alerts| ==>
        alerts[i] == if old(alerts)[i].clearedAt.None? then old(alerts)[i].(clearedAt := Some(Millis(at))) else old(alerts)[i]
    {
      ok := *;
      if ok {
        alerts := seq(|alerts|, i requires 0 <= i < |alerts| reads this =>
          if alerts[i].clearedAt.None? then alerts[i].(clearedAt := Some(Millis(at))) else alerts[i]);
      }
    }

    function LastSampleTime(): Option<Time>
      reads this
    {
      if lastSample == 0 then None else Some(lastSample * MILLISECOND)
    }
  }
}
