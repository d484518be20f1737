/** The drop rule over whole runs: which drops are open, and which raised drop events a run emits, read off what was
    observed alone. */
module DropRuns {
  import opened Model
  import opened Sorting
  import opened AlertRules
  import opened AlertRuns
  import opened DeficitLatch
  import opened DropWindow

  /** A drop is open: some observation was due for one, and none has ended it since. */
  ghost predicate DropOpen(cfg: Config, os: seq<Observation>) {
    if os == [] then false
    else
      var init, o := os[..|os| - 1], os[|os| - 1];
      if DropOpen(cfg, init) then !Over(cfg, init, o) else Due(cfg, init, o)
  }

  // --- one product ---

  lemma DropOpens(cfg: Config, ps: Product, c: Context, r: Reading)
    requires ps.drop.None?
    ensures DropStep(cfg, ps, c, r).0.drop.Some? <==> RaisesDrop(DropStep(cfg, ps, c, r).1)
  {
    hide Mean, Prune, AppendSample, Capped, Elapsed, Idle, Baseline;
    BaselineKeepsDrop(cfg, ps, c, r);
    var events := DropStep(cfg, ps, c, r).1;
    assert DropStep(cfg, ps, c, r).0.drop.Some? ==> Event(Raised, DropStep(cfg, ps, c, r).0.drop.value) in events;
  }

  lemma BaselineKeepsDrop(cfg: Config, ps: Product, c: Context, r: Reading)
    ensures forall prod: real :: Baseline(cfg, ps, c, r.delta, prod).drop == ps.drop
  {
    hide Prune;
  }

  /** A drop that is not open is open after an observation exactly when that raises it. */
  lemma ObservedOpens(cfg: Config, ps: Option<Product>, island: IslandKey, guid: int32, o: Observation)
    requires Countable(cfg) && (ps.Some? ==> WellKeyed(ps.value, island, guid)) && OpenOf(ps, ProductivityDrop).None?
    ensures OpenOf(Observe(cfg, ps, island, guid, o).0, ProductivityDrop).Some?
      <==> RaisesDrop(Observe(cfg, ps, island, guid, o).1)
  {
    match o
    case Read(name, at, r) =>
      hide DeficitStep, DropStep, RaisesDrop;
      var c := Context(island, name, guid, at);
      StepRaisesDrop(cfg, ProductOr(ps), c, r);
      DropOpens(cfg, DeficitStep(cfg, ProductOr(ps), c, r).0, c, r);
    case Gone(at) =>
  }

  /** An open drop is not raised again. */
  lemma ObservedTwice(cfg: Config, ps: Option<Product>, island: IslandKey, guid: int32, os: seq<Observation>, o: Observation)
    requires Countable(cfg) && ps == Follow(cfg, None, island, guid, os).0
    ensures RaisesDrop(Observe(cfg, ps, island, guid, o).1) <==> OpenOf(ps, ProductivityDrop).None? && Due(cfg, os, o)
  {
    hide Follow, NegativeTail, CountedReading, WindowAt, Mean, GaugeOf, Readings;
    match o
    case Read(_, _, _) =>
      hide Observe, RaisesDrop;
      DropRaisedIff(cfg, island, guid, os, o);
    case Gone(at) =>
  }

  lemma EndedIff(cfg: Config, island: IslandKey, guid: int32, os: seq<Observation>, o: Observation)
    requires Countable(cfg) && OpenOf(Follow(cfg, None, island, guid, os).0, ProductivityDrop).Some?
    ensures OpenOf(Observe(cfg, Follow(cfg, None, island, guid, os).0, island, guid, o).0, ProductivityDrop).None?
      <==> Over(cfg, os, o)
  {
    hide Follow, CalmTail, WindowAt, Mean, GaugeOf, Readings, Capped;
    if o.Read? {
      hide Observe;
      DropEndedIff(cfg, island, guid, os, o);
    } else {
      GoneEndsDrop(cfg, Follow(cfg, None, island, guid, os).0, island, guid, o);
    }
  }

  /** Whether a drop of a product is open is a function of what was observed of it. */
  lemma {:induction false} DropIsOpenIff(cfg: Config, island: IslandKey, guid: int32, os: seq<Observation>)
    requires Countable(cfg)
    ensures OpenOf(Follow(cfg, None, island, guid, os).0, ProductivityDrop).Some? <==> DropOpen(cfg, os)
  {
    if os != [] {
      var init, o := os[..|os| - 1], os[|os| - 1];
      DropIsOpenIff(cfg, island, guid, init);
      var ps := Follow(cfg, None, island, guid, init).0;
      assert Follow(cfg, None, island, guid, os).0 == Observe(cfg, ps, island, guid, o).0;
      hide Follow, Due, Over, Observe, RaisesDrop;
      FollowHeard(cfg, None, island, guid, init, AlertKey(island, guid, ProductivityDrop));
      if OpenOf(ps, ProductivityDrop).Some? {
        EndedIff(cfg, island, guid, init, o);
      } else {
        ObservedOpens(cfg, ps, island, guid, o);
        ObservedTwice(cfg, ps, island, guid, init, o);
      }
    }
  }

  // --- runs ---

  /** One of these further observations raises a drop. */
  ghost predicate RaisesAmong(cfg: Config, before: seq<Observation>, os: seq<Observation>) {
    exists j :: 0 <= j < |os| && RaisesAt(cfg, before, os, j)
  }

  ghost predicate RaisesAt(cfg: Config, before: seq<Observation>, os: seq<Observation>, j: nat)
    requires j < |os|
  {
    !DropOpen(cfg, before + os[..j]) && Due(cfg, before + os[..j], os[j])
  }

  lemma AmongLast(cfg: Config, before: seq<Observation>, os: seq<Observation>)
    requires os != []
    ensures var last := |os| - 1;
      RaisesAmong(cfg, before, os) <==> RaisesAmong(cfg, before, os[..last]) || RaisesAt(cfg, before, os, last)
  {
    hide DropOpen, Due;
    var last := |os| - 1;
    forall j | 0 <= j < last ensures RaisesAt(cfg, before, os, j) <==> RaisesAt(cfg, before, os[..last], j) {
      assert os[..last][..j] == os[..j];
    }
  }

  lemma {:induction false} FollowRaisesIff(cfg: Config, island: IslandKey, guid: int32, before: seq<Observation>,
                                           os: seq<Observation>)
    requires Countable(cfg)
    ensures RaisesDrop(Follow(cfg, Follow(cfg, None, island, guid, before).0, island, guid, os).1)
      <==> RaisesAmong(cfg, before, os)
  {
    var start := Follow(cfg, None, island, guid, before).0;
    if os != [] {
      var init, o := os[..|os| - 1], os[|os| - 1];
      var next := Follow(cfg, start, island, guid, init);
      assert Follow(cfg, start, island, guid, os).1 == next.1 + Observe(cfg, next.0, island, guid, o).1;
      FollowRaisesIff(cfg, island, guid, before, init);
      AmongLast(cfg, before, os);
      FollowAppend(cfg, None, island, guid, before, init);
      hide Follow, Observe, DropOpen, Due, RaisesAmong;
      DropIsOpenIff(cfg, island, guid, before + init);
      ObservedTwice(cfg, next.0, island, guid, before + init, o);
      RaisesJoin(next.1, Observe(cfg, next.0, island, guid, o).1);
    }
  }

  lemma RaisesJoin(a: seq<Event>, b: seq<Event>)
    ensures RaisesDrop(a + b) <==> RaisesDrop(a) || RaisesDrop(b)
  {
    assert forall e :: e in a + b <==> e in a || e in b;
  }

  /** A raised drop of this product is among the events. */
  ghost predicate RaisesDropOf(events: seq<Event>, island: IslandKey, guid: int32) {
    exists e :: e in events && e.kind == Raised && EventKey(e) == AlertKey(island, guid, ProductivityDrop)
  }

  lemma RaisedOfKey(events: seq<Event>, all: seq<Event>, island: IslandKey, guid: int32)
    requires ByKey(all, EventKey, AlertKey(island, guid, ProductivityDrop))
      == ByKey(events, EventKey, AlertKey(island, guid, ProductivityDrop))
    requires forall e :: e in events ==> e.alert.island == island && e.alert.guid == guid
    ensures RaisesDropOf(all, island, guid) <==> RaisesDrop(events)
  {
    var key := AlertKey(island, guid, ProductivityDrop);
    ByKeyMembers(all, EventKey, key);
    ByKeyMembers(events, EventKey, key);
    hide ByKey;
    assert forall e :: e in all && EventKey(e) == key <==> e in events && EventKey(e) == key;
  }

  lemma NoRaise(cfg: Config, inputs: seq<Input>, outputs: seq<seq<Event>>, i: nat, island: IslandKey, guid: int32)
    requires IsRun(cfg, inputs, outputs) && i < |inputs|
    requires inputs[i].Reset? || inputs[i].snap.key != island
    ensures !RaisesDropOf(outputs[i], island, guid)
  {
    hide StateAfter, OpenAlert;
    var key := AlertKey(island, guid, ProductivityDrop);
    ByKeyMembers(outputs[i], EventKey, key);
    assert ByKey(outputs[i], EventKey, key) == KeyEvents(cfg, StateAfter(cfg, inputs[..i]), inputs[i], key);
    if inputs[i].Apply? {
      assert ByKey([], EventKey, key) == [];
    }
  }

  /** Over every run of snapshots and resets: an input emits a raised drop of a product exactly when it is a snapshot of
      its island and one of the product's entries is due for a drop while none is open, all of it read off the snapshots
      since the last reset. */
  lemma DropRaisedInRunIff(cfg: Config, inputs: seq<Input>, outputs: seq<seq<Event>>, i: nat, island: IslandKey, guid: int32)
    requires Countable(cfg) && IsRun(cfg, inputs, outputs) && i < |inputs|
    ensures RaisesDropOf(outputs[i], island, guid) <==>
      && inputs[i].Apply? && inputs[i].snap.key == island
      && RaisesAmong(cfg, History(inputs[..i], island, guid), Observations(inputs[i].snap, island, guid))
  {
    if inputs[i].Apply? && inputs[i].snap.key == island {
      var s, st, key := inputs[i].snap, StateAfter(cfg, inputs[..i]), AlertKey(island, guid, ProductivityDrop);
      var before, os := History(inputs[..i], island, guid), Observations(inputs[i].snap, island, guid);
      var ps := Lookup(st.islands, island, guid);
      assert ByKey(outputs[i], EventKey, key) == KeyEvents(cfg, st, inputs[i], key);
      hide StateAfter, Follow, History, Observations, RaisesAmong, IsRun, RaisesDropOf, RaisesDrop, ByKey, Lookup;
      StateIsHistory(cfg, inputs[..i], island, guid);
      ProductWellKeyed(cfg, inputs[..i], island, guid);
      FollowHeard(cfg, ps, island, guid, os, key);
      RaisedOfKey(Follow(cfg, ps, island, guid, os).1, outputs[i], island, guid);
      FollowRaisesIff(cfg, island, guid, before, os);
    } else {
      NoRaise(cfg, inputs, outputs, i, island, guid);
    }
  }

  /** And a key of the drop rule is active after a run exactly when its drop is open by the observations. */
  lemma DropIsActiveIff(cfg: Config, inputs: seq<Input>, island: IslandKey, guid: int32)
    requires Countable(cfg)
    ensures OpenAlert(StateAfter(cfg, inputs), AlertKey(island, guid, ProductivityDrop)).Some?
      <==> DropOpen(cfg, History(inputs, island, guid))
  {
    hide Follow, DropOpen, History;
    StateIsHistory(cfg, inputs, island, guid);
    DropIsOpenIff(cfg, island, guid, History(inputs, island, guid));
  }
}
