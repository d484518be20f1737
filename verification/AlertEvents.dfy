/** What the engine's events and open alerts say: they describe the snapshot that produced them. */
module AlertEvents {
  import opened Model
  import opened Sorting
  import opened AlertRules
  import opened AlertRuns
  import opened DropWindow

  /** A threshold is NaN, or both are infinite: every comparison lets that through. */
  predicate BeyondRepair(c: Config) {
    || c.dropPercentagePoints.NaN? || c.dropClearPercentagePoints.NaN?
    || (c.dropPercentagePoints.PosInf? && c.dropClearPercentagePoints.PosInf?)
  }

  predicate NothingToFill(c: Config) {
    && Countable(c)
    && !c.dropPercentagePoints.AtMost(Finite(0.0)) && !c.dropClearPercentagePoints.AtMost(Finite(0.0))
  }

  /** Defaults make every count and the window positive, and a configuration usable exactly unless it is beyond repair.
      They leave as they are exactly the usable configurations and those beyond repair in which nothing is to be
      filled in. */
  lemma DefaultsRepair(c: Config)
    ensures Countable(WithDefaults(c))
    ensures Usable(WithDefaults(c)) <==> !BeyondRepair(c)
    ensures WithDefaults(c) == c <==> Usable(c) || (BeyondRepair(c) && NothingToFill(c))
    ensures WithDefaults(WithDefaults(c)) == WithDefaults(c)
  {
  }

  /** An event of one observation: a raised alert is stamped with its time and name, a cleared one is the
      alert that was open, ended at its time; a deficit's value is the balance that was read. */
  predicate Describes(e: Event, open: Option<Alert>, o: Observation) {
    && (e.kind == Raised ==>
          o.Read? && e.alert.raisedAt == o.at && e.alert.clearedAt == ZeroTime && e.alert.islandName == o.name)
    && e.alert.severity == (if e.alert.rule == NoLocalProduction then Info else Warning)
    && (e.kind == Cleared ==>
          open.Some? && e.alert == open.value.(clearedAt := o.at, value := e.alert.value))
    && (e.alert.rule != ProductivityDrop ==> o.Read? && e.alert.value == o.reading.delta)
    && (e.alert.rule == ProductivityDrop && o.Read? && o.reading.buildings != 0 ==>
          o.reading.productivity.Finite? && e.alert.value == Finite(AtMostHundred(o.reading.productivity.value)))
    && (e.alert.rule == ProductivityDrop && (o.Gone? || o.reading.buildings == 0) ==>
          e.kind == Cleared && open.Some? && e.alert.value == open.value.value)
  }

  lemma DeficitDescribes(cfg: Config, ps: Product, c: Context, r: Reading)
    requires WellKeyed(ps, c.island, c.guid)
    ensures forall e :: e in DeficitStep(cfg, ps, c, r).1 ==>
      e.alert.rule != ProductivityDrop && Describes(e, OpenIn(ps, e.alert.rule), Read(c.name, c.at, r))
    ensures DeficitStep(cfg, ps, c, r).0.drop == ps.drop
  {
  }

  lemma DropDescribes(cfg: Config, ps: Product, c: Context, r: Reading)
    requires WellKeyed(ps, c.island, c.guid)
    ensures forall e :: e in DropStep(cfg, ps, c, r).1 ==>
      e.alert.rule == ProductivityDrop && Describes(e, ps.drop, Read(c.name, c.at, r))
  {
    hide Mean, Prune, AppendSample, Elapsed, Idle;
  }

  lemma ObserveDescribes(cfg: Config, ps: Option<Product>, island: IslandKey, guid: int32, o: Observation)
    requires ps.Some? ==> WellKeyed(ps.value, island, guid)
    ensures forall e :: e in Observe(cfg, ps, island, guid, o).1 ==> Describes(e, OpenOf(ps, e.alert.rule), o)
  {
    hide DeficitStep, DropStep, Describes;
    match o
    case Read(name, at, r) =>
      var c := Context(island, name, guid, at);
      var before := if ps.Some? then ps.value else NEW_PRODUCT;
      DeficitDescribes(cfg, before, c, r);
      DeficitStepHeard(cfg, before, c, r, AlertKey(island, guid, Deficit));
      DropDescribes(cfg, DeficitStep(cfg, before, c, r).0, c, r);
    case Gone(at) =>
      GoneDescribes(cfg, ps, island, guid, at);
  }

  lemma GoneDescribes(cfg: Config, ps: Option<Product>, island: IslandKey, guid: int32, at: Time)
    requires ps.Some? ==> WellKeyed(ps.value, island, guid)
    ensures forall e :: e in Observe(cfg, ps, island, guid, Gone(at)).1 ==> Describes(e, OpenOf(ps, e.alert.rule), Gone(at))
  {
  }

  /** What all events of one snapshot share. */
  ghost predicate Current(e: Event, s: IslandSnapshot) {
    && e.alert.island == s.key
    && (e.kind == Raised ==>
          e.alert.raisedAt == s.receivedAt && e.alert.clearedAt == ZeroTime && e.alert.islandName == s.name)
    && e.alert.severity == (if e.alert.rule == NoLocalProduction then Info else Warning)
    && (e.kind == Cleared ==> e.alert.clearedAt == s.receivedAt)
    && (e.alert.rule != ProductivityDrop ==>
          exists p :: p in s.products && p.guid == e.alert.guid && e.alert.value == FloatOf(p.delta))
    && (e.alert.rule == ProductivityDrop ==> DropShown(e, s))
  }

  /** A drop's event shows the productivity of an entry, capped, unless it ends with the product's buildings. */
  ghost predicate DropShown(e: Event, s: IslandSnapshot) {
    || (exists p :: p in s.products && p.guid == e.alert.guid && FloatOf(p.avgProductivity).Finite?
          && e.alert.value == Finite(AtMostHundred(FloatOf(p.avgProductivity).value)))
    || (e.kind == Cleared && forall p :: p in s.products && p.guid == e.alert.guid && FloatOf(p.avgProductivity).Finite? ==>
          exists q :: q in s.products && q.guid == e.alert.guid && q.buildings == 0)
  }

  lemma DescribedIsCurrent(e: Event, open: Option<Alert>, s: IslandSnapshot, o: Observation, guid: int32)
    requires Describes(e, open, o) && o in Observations(s, s.key, guid)
    requires e.alert.island == s.key && e.alert.guid == guid
    ensures Current(e, s)
  {
    ByKeyMembers(s.products, GuidOf, guid);
    var entries := ByKey(s.products, GuidOf, guid);
    assert o.at == s.receivedAt && (o.Read? ==> o.name == s.name);
    if o.Read? {
      var i :| 0 <= i < |entries| && o == Read(s.name, s.receivedAt, ReadingOf(entries[i]));
      assert entries[i] in entries;
    }
  }

  lemma {:induction false} FollowCurrent(cfg: Config, ps: Option<Product>, s: IslandSnapshot, guid: int32, os: seq<Observation>)
    requires ps.Some? ==> WellKeyed(ps.value, s.key, guid)
    requires os <= Observations(s, s.key, guid)
    ensures forall e :: e in Follow(cfg, ps, s.key, guid, os).1 ==> Current(e, s)
  {
    if os != [] {
      hide Observe, Current, Observations, Describes;
      var init, o := os[..|os| - 1], os[|os| - 1];
      FollowCurrent(cfg, ps, s, guid, init);
      var before := Follow(cfg, ps, s.key, guid, init).0;
      FollowHeard(cfg, ps, s.key, guid, init, AlertKey(s.key, guid, Deficit));
      ObserveHeard(cfg, before, s.key, guid, o, AlertKey(s.key, guid, Deficit));
      ObserveDescribes(cfg, before, s.key, guid, o);
      assert o in Observations(s, s.key, guid);
      forall e | e in Observe(cfg, before, s.key, guid, o).1 ensures Current(e, s) {
        DescribedIsCurrent(e, OpenOf(before, e.alert.rule), s, o, guid);
      }
    }
  }

  /** In every run, every event a snapshot produces is about its island, carries its receive time (as the time
      raised or cleared) and, when raised, its island name; a deficit's value is the balance of an entry the
      snapshot lists for that product. */
  lemma EventsAreCurrent(cfg: Config, inputs: seq<Input>, outputs: seq<seq<Event>>, i: nat, e: Event)
    requires IsRun(cfg, inputs, outputs) && i < |inputs| && inputs[i].Apply? && e in outputs[i]
    ensures Current(e, inputs[i].snap)
  {
    hide Current, Follow, StateAfter, Observations;
    var s, key, st := inputs[i].snap, EventKey(e), StateAfter(cfg, inputs[..i]);
    ByKeyMembers(outputs[i], EventKey, key);
    assert e in KeyEvents(cfg, st, inputs[i], key);
    ProductWellKeyed(cfg, inputs[..i], s.key, key.guid);
    var followed := Follow(cfg, Lookup(st.islands, s.key, key.guid), s.key, key.guid, Observations(s, key.island, key.guid)).1;
    ByKeyMembers(followed, EventKey, key);
    if key.island == s.key {
      FollowCurrent(cfg, Lookup(st.islands, s.key, key.guid), s, key.guid, Observations(s, s.key, key.guid));
    } else {
      NothingObserved(cfg, Lookup(st.islands, s.key, key.guid), s, key.island, key.guid);
    }
  }

  lemma NothingObserved(cfg: Config, ps: Option<Product>, s: IslandSnapshot, island: IslandKey, guid: int32)
    requires s.key != island
    ensures Follow(cfg, ps, s.key, guid, Observations(s, island, guid)).1 == []
  {
  }

  // --- open deficits ---

  /** The last reading among observations. */
  function LastRead(os: seq<Observation>): (last: Option<Observation>)
    ensures last.Some? ==> last.value.Read? && last.value in os
    ensures last.None? <==> forall o :: o in os ==> o.Gone?
  {
    if os == [] then None
    else if os[|os| - 1].Read? then Some(os[|os| - 1])
    else LastRead(os[..|os| - 1])
  }

  lemma DropStepKeepsDeficit(cfg: Config, ps: Product, c: Context, r: Reading)
    ensures DropStep(cfg, ps, c, r).0.deficit == ps.deficit
  {
    hide Mean, Prune, AppendSample, Capped, Elapsed, Idle;
  }

  lemma DeficitFollows(cfg: Config, ps: Product, c: Context, r: Reading)
    requires WellKeyed(ps, c.island, c.guid)
    ensures var next := DeficitStep(cfg, ps, c, r).0;
      next.deficit.Some? ==>
        var a := next.deficit.value;
        a.value == r.delta && a.islandName == c.name && a.rule == DeficitRule(r.buildings)
  {
  }

  lemma {:induction false} HistoryIsCurrent(cfg: Config, island: IslandKey, guid: int32, os: seq<Observation>)
    ensures var ps := Follow(cfg, None, island, guid, os).0;
      && (ps.Some? ==> WellKeyed(ps.value, island, guid))
      && (ps.Some? && ps.value.deficit.Some? ==>
            var a := ps.value.deficit.value;
            LastRead(os).Some?
            && var last := LastRead(os).value;
               a.value == last.reading.delta && a.islandName == last.name && a.rule == DeficitRule(last.reading.buildings))
  {
    if os != [] {
      hide DeficitStep, DropStep;
      var init, o := os[..|os| - 1], os[|os| - 1];
      HistoryIsCurrent(cfg, island, guid, init);
      var before := Follow(cfg, None, island, guid, init).0;
      ObserveHeard(cfg, before, island, guid, o, AlertKey(island, guid, Deficit));
      if o.Read? {
        var ps := if before.Some? then before.value else NEW_PRODUCT;
        var c := Context(island, o.name, guid, o.at);
        DeficitFollows(cfg, ps, c, o.reading);
        DropStepKeepsDeficit(cfg, DeficitStep(cfg, ps, c, o.reading).0, c, o.reading);
      }
    }
  }

  /** An open deficit alert always shows the latest balance read for its product, under the island name it was
      read with, and its rule is the one the latest building count selects. */
  lemma OpenDeficitIsCurrent(cfg: Config, inputs: seq<Input>, key: AlertKey)
    requires key.rule != ProductivityDrop && OpenAlert(StateAfter(cfg, inputs), key).Some?
    ensures
      var a := OpenAlert(StateAfter(cfg, inputs), key).value;
      var last := LastRead(History(inputs, key.island, key.guid));
      && last.Some?
      && a.value == last.value.reading.delta && a.islandName == last.value.name
      && key.rule == DeficitRule(last.value.reading.buildings)
  {
    StateIsHistory(cfg, inputs, key.island, key.guid);
    HistoryIsCurrent(cfg, key.island, key.guid, History(inputs, key.island, key.guid));
  }
}
