/** The newest complete statistics tick, found without an end-of-tick marker. */
module TickTracker {
  import opened Model
  import opened Sorting

  type Snapshots = map<IslandKey, IslandSnapshot>

  /** The latest snapshot of every island among puts. */
  function Latest(puts: seq<IslandSnapshot>): Snapshots {
    if puts == [] then map[]
    else Latest(puts[..|puts| - 1])[puts[|puts| - 1].key := puts[|puts| - 1]]
  }

  /** Where the last run of equal game timestamps begins. */
  function LastRun(puts: seq<IslandSnapshot>): (start: nat)
    ensures start <= |puts| && (puts != [] ==> start < |puts|)
  {
    if |puts| <= 1 then 0
    else if puts[|puts| - 2].gameTimestamp == puts[|puts| - 1].gameTimestamp then LastRun(puts[..|puts| - 1])
    else |puts| - 1
  }

  datatype Tick = Tick(stamp: int64, islands: Snapshots)

  function RunTick(run: seq<IslandSnapshot>): Option<Tick> {
    if run == [] then None else Some(Tick(run[|run| - 1].gameTimestamp, Latest(run)))
  }

  /** The tick whose islands are arriving, and the one before it. */
  function Receiving(puts: seq<IslandSnapshot>): Option<Tick> {
    RunTick(puts[LastRun(puts)..])
  }

  function Previous(puts: seq<IslandSnapshot>): Option<Tick> {
    Receiving(puts[..LastRun(puts)])
  }

  /** The newest complete tick as a function of all puts since the last reset: none while there is one run
      of timestamps only, else the last run if every island seen has reported in it, else the run before it. */
  function Complete(puts: seq<IslandSnapshot>): Option<Tick> {
    if Previous(puts).Some? && Receiving(puts).value.islands.Keys == Latest(puts).Keys then Receiving(puts)
    else Previous(puts)
  }

  // --- what the last run is ---

  lemma {:induction false} LastRunIsMaximal(puts: seq<IslandSnapshot>)
    requires puts != []
    ensures var start := LastRun(puts);
      && (forall i :: start <= i < |puts| ==> puts[i].gameTimestamp == puts[|puts| - 1].gameTimestamp)
      && (start > 0 ==> puts[start - 1].gameTimestamp != puts[start].gameTimestamp)
  {
    if |puts| > 1 && puts[|puts| - 2].gameTimestamp == puts[|puts| - 1].gameTimestamp {
      var init := puts[..|puts| - 1];
      LastRunIsMaximal(init);
      forall i | LastRun(puts) <= i < |puts| ensures puts[i].gameTimestamp == puts[|puts| - 1].gameTimestamp {
        assert i < |init| ==> init[i] == puts[i];
      }
    }
  }

  /** Latest holds, for every key put, the last snapshot put under it. */
  lemma {:induction false} LatestIsLast(puts: seq<IslandSnapshot>, key: IslandKey)
    ensures key in Latest(puts) ==> Latest(puts)[key].key == key && Latest(puts)[key] in puts
    ensures forall i :: 0 <= i < |puts| && puts[i].key == key ==> key in Latest(puts)
    ensures forall i :: 0 <= i < |puts| && puts[i].key == key && (forall j :: i < j < |puts| ==> puts[j].key != key)
              ==> key in Latest(puts) && Latest(puts)[key] == puts[i]
  {
    if puts != [] {
      var init, last := puts[..|puts| - 1], |puts| - 1;
      LatestIsLast(init, key);
      assert puts == init + [puts[last]];
    }
  }

  /** Every snapshot of a run's tick carries the tick's timestamp, under its own key. */
  lemma ReceivingIsOneTick(puts: seq<IslandSnapshot>, key: IslandKey)
    requires Receiving(puts).Some? && key in Receiving(puts).value.islands
    ensures var tick := Receiving(puts).value;
      tick.islands[key].key == key && tick.islands[key].gameTimestamp == tick.stamp && tick.islands[key] in puts
  {
    var run := puts[LastRun(puts)..];
    LastRunIsMaximal(puts);
    LatestIsLast(run, key);
    var i :| 0 <= i < |run| && run[i] == Latest(run)[key];
    assert run[i] == puts[LastRun(puts) + i];
  }

  /** A complete tick never mixes timestamps, although the map it shares keeps growing. */
  lemma CompleteIsOneTick(puts: seq<IslandSnapshot>, key: IslandKey)
    requires Complete(puts).Some? && key in Complete(puts).value.islands
    ensures var tick := Complete(puts).value;
      tick.islands[key].key == key && tick.islands[key].gameTimestamp == tick.stamp && tick.islands[key] in puts
  {
    if Complete(puts) == Receiving(puts) {
      ReceivingIsOneTick(puts, key);
    } else {
      ReceivingIsOneTick(puts[..LastRun(puts)], key);
    }
  }

  lemma {:induction false} LatestCovers(a: seq<IslandSnapshot>, b: seq<IslandSnapshot>)
    ensures Latest(a + b) == Latest(a) + Latest(b)
  {
    if b == [] {
      assert a + b == a;
    } else {
      assert (a + b)[..|a + b| - 1] == a + b[..|b| - 1];
      LatestCovers(a, b[..|b| - 1]);
    }
  }

  lemma ReceivingWithin(puts: seq<IslandSnapshot>)
    ensures Receiving(puts).Some? ==> Receiving(puts).value.islands.Keys <= Latest(puts).Keys
  {
    var start := LastRun(puts);
    assert puts == puts[..start] + puts[start..];
    LatestCovers(puts[..start], puts[start..]);
  }

  /** When the tick being received is the complete one, it is the whole current picture. */
  lemma CompleteIsCurrent(puts: seq<IslandSnapshot>)
    requires Complete(puts).Some? && Receiving(puts).value.islands.Keys == Latest(puts).Keys
    ensures Complete(puts).value.islands == Latest(puts)
  {
    var start := LastRun(puts);
    assert puts == puts[..start] + puts[start..];
    LatestCovers(puts[..start], puts[start..]);
  }

  // --- what a complete tick is, on the order of the puts alone ---

  /** The puts from a to b have one timestamp, and their neighbours have others. */
  predicate MaximalRun(puts: seq<IslandSnapshot>, a: nat, b: nat) {
    && a < b <= |puts|
    && (forall i :: a <= i < b ==> puts[i].gameTimestamp == puts[a].gameTimestamp)
    && (a > 0 ==> puts[a - 1].gameTimestamp != puts[a].gameTimestamp)
    && (b < |puts| ==> puts[b].gameTimestamp != puts[a].gameTimestamp)
  }

  /** This snapshot is the last one put of its island between a and b. */
  ghost predicate LastPut(puts: seq<IslandSnapshot>, a: nat, b: nat, s: IslandSnapshot)
    requires a <= b <= |puts|
  {
    exists i :: a <= i < b && puts[i] == s && forall j :: i < j < b ==> puts[j].key != s.key
  }

  ghost predicate WasPut(puts: seq<IslandSnapshot>, a: nat, key: IslandKey) {
    exists j :: a <= j < |puts| && puts[j].key == key
  }

  /** Every island put at all was put from a on. */
  ghost predicate AllReported(puts: seq<IslandSnapshot>, a: nat) {
    forall i :: 0 <= i < |puts| ==> WasPut(puts, a, puts[i].key)
  }

  /** Two neighbouring puts have different timestamps: a tick has ended. */
  ghost predicate TickEnded(puts: seq<IslandSnapshot>) {
    exists i :: 0 < i < |puts| && puts[i - 1].gameTimestamp != puts[i].gameTimestamp
  }

  /** The newest tick known to be whole: a maximal run behind another one, in which every island put has reported, or
      else the run before the one being received. */
  ghost predicate NewestWhole(puts: seq<IslandSnapshot>, a: nat, b: nat) {
    && MaximalRun(puts, a, b)
    && if b == |puts| then a > 0 && AllReported(puts, a)
       else MaximalRun(puts, b, |puts|) && !AllReported(puts, b)
  }

  lemma LatestIsLastPut(puts: seq<IslandSnapshot>, a: nat, b: nat, s: IslandSnapshot)
    requires a <= b <= |puts|
    ensures LastPut(puts, a, b, s) <==> s.key in Latest(puts[a..b]) && Latest(puts[a..b])[s.key] == s
  {
    var run := puts[a..b];
    LatestIsLast(run, s.key);
    if s.key in Latest(run) {
      var i := LastOfKey(run, s.key);
      assert run[i] == Latest(run)[s.key] && puts[a + i] == run[i];
      forall j | a + i < j < b ensures puts[j].key != s.key { assert run[j - a] == puts[j]; }
    }
    if LastPut(puts, a, b, s) {
      var i :| a <= i < b && puts[i] == s && forall j :: i < j < b ==> puts[j].key != s.key;
      assert run[i - a] == s && forall j :: i - a < j < |run| ==> run[j] == puts[a + j];
    }
  }

  lemma {:induction false} LastOfKey(run: seq<IslandSnapshot>, key: IslandKey) returns (i: nat)
    requires key in Latest(run)
    ensures i < |run| && run[i] == Latest(run)[key] && run[i].key == key && forall j :: i < j < |run| ==> run[j].key != key
  {
    i := |run| - 1;
    if run[i].key != key {
      i := LastOfKey(run[..|run| - 1], key);
    }
  }

  lemma WasPutIff(puts: seq<IslandSnapshot>, a: nat, key: IslandKey)
    requires a <= |puts|
    ensures key in Latest(puts[a..]) <==> WasPut(puts, a, key)
  {
    var run := puts[a..];
    LatestIsLast(run, key);
    if key in Latest(run) {
      var j := LastOfKey(run, key);
      assert puts[a + j] == run[j];
    }
    if WasPut(puts, a, key) {
      var j :| a <= j < |puts| && puts[j].key == key;
      assert run[j - a] == puts[j];
    }
  }

  lemma ReportedIff(puts: seq<IslandSnapshot>, a: nat)
    requires a <= |puts|
    ensures AllReported(puts, a) <==> Latest(puts[a..]).Keys == Latest(puts).Keys
  {
    assert puts[0..] == puts;
    forall key: IslandKey
      ensures key in Latest(puts[a..]) <==> WasPut(puts, a, key)
      ensures key in Latest(puts) <==> WasPut(puts, 0, key)
    {
      WasPutIff(puts, a, key);
      WasPutIff(puts, 0, key);
    }
    hide Latest;
    assert forall i :: 0 <= i < |puts| ==> WasPut(puts, 0, puts[i].key);
    assert forall key :: WasPut(puts, a, key) ==> WasPut(puts, 0, key);
    if AllReported(puts, a) {
      forall key | WasPut(puts, 0, key) ensures WasPut(puts, a, key) {
        var i :| 0 <= i < |puts| && puts[i].key == key;
      }
      hide WasPut;
      assert Latest(puts[a..]).Keys == Latest(puts).Keys;
    } else {
      var i :| 0 <= i < |puts| && !WasPut(puts, a, puts[i].key);
      hide WasPut;
      assert puts[i].key in Latest(puts).Keys && puts[i].key !in Latest(puts[a..]).Keys;
    }
  }

  lemma LastRunIs(puts: seq<IslandSnapshot>)
    requires puts != []
    ensures MaximalRun(puts, LastRun(puts), |puts|)
    ensures LastRun(puts) > 0 ==> TickEnded(puts)
  {
    LastRunIsMaximal(puts);
    hide LastRun;
    var a := LastRun(puts);
    if a > 0 {
      assert puts[a - 1].gameTimestamp != puts[a].gameTimestamp;
    }
  }

  lemma RunBefore(puts: seq<IslandSnapshot>)
    requires LastRun(puts) > 0
    ensures MaximalRun(puts, LastRun(puts[..LastRun(puts)]), LastRun(puts))
  {
    var b := LastRun(puts);
    LastRunIs(puts);
    LastRunIs(puts[..b]);
    assert forall i :: 0 <= i < b ==> puts[..b][i] == puts[i];
  }

  lemma PutsOfTick(puts: seq<IslandSnapshot>, a: nat, b: nat)
    requires a <= b <= |puts|
    ensures forall s :: LastPut(puts, a, b, s) <==> s.key in Latest(puts[a..b]) && Latest(puts[a..b])[s.key] == s
  {
    hide LastPut, Latest;
    forall s ensures LastPut(puts, a, b, s) <==> s.key in Latest(puts[a..b]) && Latest(puts[a..b])[s.key] == s {
      LatestIsLastPut(puts, a, b, s);
    }
  }

  lemma RunTickIs(puts: seq<IslandSnapshot>, a: nat, b: nat)
    requires MaximalRun(puts, a, b)
    ensures RunTick(puts[a..b]) == Some(Tick(puts[a].gameTimestamp, Latest(puts[a..b])))
  {
    hide Latest;
    assert puts[a..b][b - a - 1] == puts[b - 1];
  }

  lemma TicksAre(puts: seq<IslandSnapshot>)
    requires LastRun(puts) > 0
    ensures var b := LastRun(puts);
      var a := LastRun(puts[..b]);
      && Receiving(puts) == Some(Tick(puts[b].gameTimestamp, Latest(puts[b..|puts|])))
      && Previous(puts) == Some(Tick(puts[a].gameTimestamp, Latest(puts[a..b])))
  {
    hide Latest, MaximalRun, RunTick, TickEnded;
    var b := LastRun(puts);
    var a := LastRun(puts[..b]);
    LastRunIs(puts);
    RunBefore(puts);
    RunTickIs(puts, b, |puts|);
    RunTickIs(puts, a, b);
    hide LastRun;
    assert puts[..b][a..] == puts[a..b] && puts[b..] == puts[b..|puts|];
  }

  /** What Complete is: there is a complete tick exactly when a tick has ended, and then it is the newest one known to be
      whole, with exactly the last snapshot of every island put in it. */
  lemma CompleteIsWhole(puts: seq<IslandSnapshot>) returns (a: nat, b: nat)
    ensures Complete(puts).Some? <==> TickEnded(puts)
    ensures Complete(puts).Some? ==>
      && NewestWhole(puts, a, b) && Complete(puts).value.stamp == puts[a].gameTimestamp
      && forall s :: LastPut(puts, a, b, s) <==>
           s.key in Complete(puts).value.islands && Complete(puts).value.islands[s.key] == s
  {
    a, b := LastRun(puts), |puts|;
    if a == 0 {
      OneRun(puts);
    } else {
      LastRunIs(puts);
      ReportedIff(puts, a);
      RunBefore(puts);
      TicksAre(puts);
      hide LastRun, Latest, LastPut, TickEnded, AllReported, Receiving, Previous, MaximalRun;
      var first := a;
      assert puts[first..|puts|] == puts[first..];
      if !AllReported(puts, first) {
        a, b := LastRun(puts[..first]), first;
      }
      PutsOfTick(puts, a, b);
    }
  }

  lemma OneRun(puts: seq<IslandSnapshot>)
    requires LastRun(puts) == 0
    ensures !TickEnded(puts) && Previous(puts) == None
  {
    if puts != [] { LastRunIsMaximal(puts); }
    assert puts[..0] == [];
  }

  // --- the tracker ---

  /** A tick's islands, a map two of the tracker's fields can share. */
  class TickMap {
    var snaps: Snapshots

    constructor ()
      ensures snaps == map[]
    {
      snaps := map[];
    }
  }

  class State {
    var islands: Snapshots
    var receivingStamp: int64
    var receiving: TickMap?
    var completeStamp: int64
    var complete: TickMap?

    // All puts since the last reset.
    ghost var puts: seq<IslandSnapshot>
    ghost var Repr: set<object>

    /** While the received tick is known to be complete, both fields are the same map. */
    ghost predicate Valid()
      reads this, Repr
    {
      && this !in Repr
      && islands == Latest(puts)
      && (receiving != null ==> receiving in Repr)
      && (complete != null ==> receiving != null && complete in Repr)
      && Receiving(puts) == (if receiving == null then None else Some(Tick(receivingStamp, receiving.snaps)))
      && Complete(puts) == (if complete == null then None else Some(Tick(completeStamp, complete.snaps)))
      && (complete != null ==> (complete == receiving <==> receiving.snaps.Keys == islands.Keys))
    }

    constructor ()
      ensures Valid() && puts == [] && fresh(Repr)
    {
      islands, receiving, complete := map[], null, null;
      receivingStamp, completeStamp := 0, 0;
      puts, Repr := [], {};
    }

    /** A different timestamp is the boundary: the tick before it is over. */
    method BeginTick(stamp: int64)
      modifies this
      ensures fresh(receiving) && receiving.snaps == map[] && receivingStamp == stamp
      ensures Repr == old(Repr) + {receiving} && islands == old(islands) && puts == old(puts)
      ensures if old(receiving) == null then complete == old(complete) && completeStamp == old(completeStamp)
              else complete == old(receiving) && completeStamp == old(receivingStamp)
    {
      if receiving != null {
        completeStamp, complete := receivingStamp, receiving;
      }
      receivingStamp := stamp;
      receiving := new TickMap();
      Repr := Repr + {receiving};
    }

    method Put(snap: IslandSnapshot)
      requires Valid()
      modifies this, Repr
      ensures Valid() && fresh(Repr - old(Repr))
      ensures puts == old(puts) + [snap]
    {
      hide Receiving, Previous, Latest;
      RunGrows(puts, snap);
      LatestGrows(puts, snap);
      ReceivingWithin(puts + [snap]);
      islands := islands[snap.key := snap];
      if receiving == null || snap.gameTimestamp != receivingStamp {
        BeginTick(snap.gameTimestamp);
      }
      receiving.snaps := receiving.snaps[snap.key := snap];
      puts := puts + [snap];
      assert Receiving(puts) == Some(Tick(receivingStamp, receiving.snaps));
      SameSize(receiving.snaps, islands);
      if complete != null && |receiving.snaps| == |islands| {
        completeStamp, complete := receivingStamp, receiving;
      }
    }

    method CompleteTick() returns (stamp: int64, snaps: seq<IslandSnapshot>, ok: bool)
      requires Valid()
      ensures ok <==> TickEnded(puts)
      ensures ok ==> InOrder(snaps) && exists a, b :: NewestWhole(puts, a, b) && Returned(puts, a, b, stamp, snaps)
      ensures ok <==> Complete(puts).Some?
      ensures ok ==> stamp == Complete(puts).value.stamp && Lists(snaps, Complete(puts).value.islands)
    {
      ghost var a, b := CompleteIsWhole(puts);
      if complete == null {
        return 0, [], false;
      }
      forall key | key in complete.snaps ensures complete.snaps[key].key == key {
        CompleteIsOneTick(puts, key);
      }
      snaps := Collect(complete.snaps);
      ListsInOrder(snaps, complete.snaps);
      stamp, ok := completeStamp, true;
      hide Complete, NewestWhole, LastPut, Latest, Receiving;
      assert Returned(puts, a, b, stamp, snaps);
    }

    method Islands() returns (snaps: seq<IslandSnapshot>)
      requires Valid()
      ensures InOrder(snaps) && forall s :: s in snaps <==> LastPut(puts, 0, |puts|, s)
      ensures Lists(snaps, Latest(puts))
    {
      forall s ensures LastPut(puts, 0, |puts|, s) <==> s.key in islands && islands[s.key] == s {
        LatestIsLastPut(puts, 0, |puts|, s);
        assert puts[0..|puts|] == puts;
      }
      forall key | key in islands ensures islands[key].key == key {
        LatestIsLast(puts, key);
      }
      snaps := Collect(islands);
      ListsInOrder(snaps, islands);
    }

    method Reset()
      requires Valid()
      modifies this
      ensures Valid() && puts == [] && Repr == old(Repr)
    {
      islands, receiving, complete := map[], null, null;
      receivingStamp, completeStamp := 0, 0;
      puts := [];
    }
  }

  lemma LatestGrows(puts: seq<IslandSnapshot>, snap: IslandSnapshot)
    ensures Latest(puts + [snap]) == Latest(puts)[snap.key := snap]
  {
    assert (puts + [snap])[..|puts|] == puts;
  }

  /** A put with the running timestamp extends the run; any other timestamp ends it. */
  lemma RunGrows(puts: seq<IslandSnapshot>, snap: IslandSnapshot)
    ensures var more := puts + [snap];
      if Receiving(puts).Some? && Receiving(puts).value.stamp == snap.gameTimestamp then
        Previous(more) == Previous(puts)
        && Receiving(more) == Some(Receiving(puts).value.(islands := Receiving(puts).value.islands[snap.key := snap]))
      else
        Previous(more) == Receiving(puts) && Receiving(more) == Some(Tick(snap.gameTimestamp, map[snap.key := snap]))
  {
    hide Latest;
    var more := puts + [snap];
    assert more[..|puts|] == puts;
    if Receiving(puts).Some? && Receiving(puts).value.stamp == snap.gameTimestamp {
      var start := LastRun(puts);
      assert LastRun(more) == start;
      assert more[start..] == puts[start..] + [snap] && more[..start] == puts[..start];
      LatestGrows(puts[start..], snap);
    } else {
      assert LastRun(more) == |puts|;
      assert more[|puts|..] == [] + [snap];
      LatestGrows([], snap);
      LatestOfNone();
    }
  }

  lemma LatestOfNone()
    ensures Latest([]) == map[]
  {
  }

  lemma SameSize<K, V>(part: map<K, V>, whole: map<K, V>)
    requires part.Keys <= whole.Keys
    ensures |part| == |whole| <==> part.Keys == whole.Keys
  {
    var rest := whole.Keys - part.Keys;
    assert whole.Keys == part.Keys + rest;
    assert |whole.Keys| == |part.Keys| + |rest|;
    assert rest == {} <==> part.Keys == whole.Keys;
  }

  // --- lists ---

  /** The snapshots of a map, ordered by island: this determines the list, however the map was walked. */
  ghost predicate Lists(snaps: seq<IslandSnapshot>, islands: Snapshots) {
    && StrictlySorted(snaps, SnapshotKey, IslandLeq)
    && forall s :: s in snaps <==> s.key in islands && islands[s.key] == s
  }

  /** Ascending by session, then by island, each island once. */
  ghost predicate InOrder(snaps: seq<IslandSnapshot>) {
    forall i, j :: 0 <= i < j < |snaps| ==>
      snaps[i].key.session < snaps[j].key.session
      || (snaps[i].key.session == snaps[j].key.session && snaps[i].key.island < snaps[j].key.island)
  }

  lemma ListsInOrder(snaps: seq<IslandSnapshot>, islands: Snapshots)
    requires Lists(snaps, islands)
    ensures InOrder(snaps)
  {
    forall i, j | 0 <= i < j < |snaps|
      ensures snaps[i].key.session < snaps[j].key.session
        || (snaps[i].key.session == snaps[j].key.session && snaps[i].key.island < snaps[j].key.island)
    {
      assert IslandLeq(SnapshotKey(snaps[i]), SnapshotKey(snaps[j])) && SnapshotKey(snaps[i]) != SnapshotKey(snaps[j]);
    }
  }

  /** This list is the tick of the puts from a to b. */
  ghost predicate Returned(puts: seq<IslandSnapshot>, a: nat, b: nat, stamp: int64, snaps: seq<IslandSnapshot>)
    requires a < b <= |puts|
  {
    stamp == puts[a].gameTimestamp && forall s :: s in snaps <==> LastPut(puts, a, b, s)
  }

  lemma ListUnique(a: seq<IslandSnapshot>, b: seq<IslandSnapshot>, islands: Snapshots)
    requires Lists(a, islands) && Lists(b, islands)
    ensures a == b
  {
    StrictlySortedUnique(a, b, SnapshotKey, IslandLeq);
  }

  method Collect(islands: Snapshots) returns (snaps: seq<IslandSnapshot>)
    requires forall k :: k in islands ==> islands[k].key == k
    ensures Lists(snaps, islands)
  {
    snaps := [];
    var todo := islands.Keys;
    while todo != {}
      invariant todo <= islands.Keys
      invariant DistinctKeys(snaps, SnapshotKey)
      invariant forall s :: s in snaps <==> s.key in islands && s.key !in todo && islands[s.key] == s
      decreases todo
    {
      var key :| key in todo;
      assert forall i :: 0 <= i < |snaps| ==> snaps[i] in snaps;
      snaps := snaps + [islands[key]];
      todo := todo - {key};
    }
    SortDistinct(snaps, SnapshotKey, IslandLeq);
    snaps := StableSort(snaps, SnapshotKey, IslandLeq);
  }
}
