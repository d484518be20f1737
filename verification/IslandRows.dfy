/** What the island table says of an island after any number of stored snapshots. */
module IslandRows {
  import opened Model
  import opened HistoryTables
  import TickTracker

  /** The times of an island's snapshots, in the order stored. */
  function Seen(snaps: seq<IslandSnapshot>, key: IslandKey): seq<int> {
    if snaps == [] then []
    else
      Seen(snaps[..|snaps| - 1], key)
      + if snaps[|snaps| - 1].key == key then [Millis(snaps[|snaps| - 1].receivedAt)] else []
  }

  /** An island has a row exactly when it had one or was stored; the row keeps its id and its first time, has the name
      of the latest snapshot, and its last time is the newest of all, whatever order the snapshots came in. */
  lemma {:induction false} IslandRowIs(db: Db, snaps: seq<IslandSnapshot>, key: IslandKey)
    ensures
      var after, seen := StoreAll(db, snaps), Seen(snaps, key);
      && (key in after.islands <==> key in db.islands || seen != [])
      && (key in TickTracker.Latest(snaps) <==> seen != [])
      && (key in db.islands && seen == [] ==> after.islands[key] == db.islands[key])
      && (key in db.islands ==>
            after.islands[key].id == db.islands[key].id && after.islands[key].firstSeen == db.islands[key].firstSeen
            && after.islands[key].lastSeen >= db.islands[key].lastSeen)
      && (key !in db.islands && seen != [] ==>
            after.islands[key].firstSeen == seen[0] && after.islands[key].lastSeen in seen)
      && (seen != [] ==>
            && after.islands[key].name == TickTracker.Latest(snaps)[key].name
            && (forall t :: t in seen ==> after.islands[key].lastSeen >= t)
            && (key in db.islands ==> after.islands[key].lastSeen == db.islands[key].lastSeen || after.islands[key].lastSeen in seen))
  {
    if snaps != [] {
      hide ReplaceAll;
      IslandRowIs(db, snaps[..|snaps| - 1], key);
    }
  }
}
