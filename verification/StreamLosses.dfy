/** Which events of a run cannot be sent to a browser, and what a page misses by it. */
module StreamLosses {
  import opened Model
  import opened Sorting
  import opened AlertRules
  import opened AlertRuns
  import opened AlertEvents
  import opened StreamView

  // --- the values of drop alerts are numbers ---

  predicate FiniteDrop(ps: Product) {
    ps.drop.Some? ==> ps.drop.value.value.Finite?
  }

  lemma DropStepFinite(cfg: Config, ps: Product, c: Context, r: Reading)
    requires FiniteDrop(ps)
    ensures FiniteDrop(DropStep(cfg, ps, c, r).0)
    ensures forall e :: e in DropStep(cfg, ps, c, r).1 ==> e.alert.value.Finite?
  {
    hide Mean, Prune, AppendSample, Capped, Elapsed, Idle;
  }

  lemma DeficitStepKeepsDrop(cfg: Config, ps: Product, c: Context, r: Reading)
    requires WellKeyed(ps, c.island, c.guid)
    ensures DeficitStep(cfg, ps, c, r).0.drop == ps.drop
    ensures forall e :: e in DeficitStep(cfg, ps, c, r).1 ==> e.alert.rule != ProductivityDrop
  {
  }

  lemma ObserveFinite(cfg: Config, ps: Option<Product>, island: IslandKey, guid: int32, o: Observation)
    requires ps.Some? ==> WellKeyed(ps.value, island, guid) && FiniteDrop(ps.value)
    ensures var (next, events) := Observe(cfg, ps, island, guid, o);
      && (next.Some? ==> FiniteDrop(next.value))
      && forall e :: e in events && e.alert.rule == ProductivityDrop ==> e.alert.value.Finite?
  {
    hide DeficitStep, DropStep;
    match o
    case Read(name, at, r) =>
      var c := Context(island, name, guid, at);
      var before := if ps.Some? then ps.value else NEW_PRODUCT;
      DeficitStepKeepsDrop(cfg, before, c, r);
      DropStepFinite(cfg, DeficitStep(cfg, before, c, r).0, c, r);
    case Gone(at) =>
  }

  lemma {:induction false} FollowFinite(cfg: Config, ps: Option<Product>, island: IslandKey, guid: int32, os: seq<Observation>)
    requires ps.Some? ==> WellKeyed(ps.value, island, guid) && FiniteDrop(ps.value)
    ensures var (next, events) := Follow(cfg, ps, island, guid, os);
      && (next.Some? ==> FiniteDrop(next.value))
      && forall e :: e in events && e.alert.rule == ProductivityDrop ==> e.alert.value.Finite?
  {
    if os != [] {
      hide Observe;
      var init := os[..|os| - 1];
      FollowFinite(cfg, ps, island, guid, init);
      FollowHeard(cfg, ps, island, guid, init, AlertKey(island, guid, Deficit));
      ObserveFinite(cfg, Follow(cfg, ps, island, guid, init).0, island, guid, os[|os| - 1]);
    }
  }

  lemma OpenDropIsFinite(cfg: Config, inputs: seq<Input>, key: AlertKey)
    requires key.rule == ProductivityDrop && OpenAlert(StateAfter(cfg, inputs), key).Some?
    ensures OpenAlert(StateAfter(cfg, inputs), key).value.value.Finite?
  {
    StateIsHistory(cfg, inputs, key.island, key.guid);
    FollowFinite(cfg, None, key.island, key.guid, History(inputs, key.island, key.guid));
  }

  // --- which events cannot be rendered ---

  /** The balance an event of a deficit rule shows: that of an entry of the snapshot or, at a reset, the last one read. */
  ghost predicate ShowsBalance(inputs: seq<Input>, i: nat, e: Event, balance: Float)
    requires i < |inputs|
  {
    match inputs[i]
    case Apply(s) => exists p :: p in s.products && p.guid == e.alert.guid && FloatOf(p.delta) == balance
    case Reset(_) =>
      var last := LastRead(History(inputs[..i], e.alert.island, e.alert.guid));
      last.Some? && last.value.reading.delta == balance
  }

  lemma ResetClears(cfg: Config, inputs: seq<Input>, outputs: seq<seq<Event>>, i: nat, e: Event)
    requires IsRun(cfg, inputs, outputs) && i < |inputs| && inputs[i].Reset? && e in outputs[i]
    ensures var open := OpenAlert(StateAfter(cfg, inputs[..i]), EventKey(e));
      open.Some? && e.alert.value == open.value.value
  {
    hide StateAfter, OpenAlert;
    ByKeyMembers(outputs[i], EventKey, EventKey(e));
    assert e in KeyEvents(cfg, StateAfter(cfg, inputs[..i]), inputs[i], EventKey(e));
  }

  lemma DropEventIsFinite(cfg: Config, inputs: seq<Input>, outputs: seq<seq<Event>>, i: nat, e: Event)
    requires IsRun(cfg, inputs, outputs) && i < |inputs| && e in outputs[i] && e.alert.rule == ProductivityDrop
    ensures e.alert.value.Finite?
  {
    hide StateAfter, OpenAlert, Follow;
    var key, st := EventKey(e), StateAfter(cfg, inputs[..i]);
    match inputs[i]
    case Apply(s) =>
      ByKeyMembers(outputs[i], EventKey, key);
      var os := Observations(s, key.island, key.guid);
      ByKeyMembers(Follow(cfg, Lookup(st.islands, s.key, key.guid), s.key, key.guid, os).1, EventKey, key);
      ProductWellKeyed(cfg, inputs[..i], s.key, key.guid);
      KnownDropIsFinite(cfg, inputs[..i], s.key, key.guid);
      FollowFinite(cfg, Lookup(st.islands, s.key, key.guid), s.key, key.guid, os);
      assert e in KeyEvents(cfg, st, inputs[i], key);
    case Reset(_) =>
      ResetClears(cfg, inputs, outputs, i, e);
      OpenDropIsFinite(cfg, inputs[..i], key);
  }

  lemma KnownDropIsFinite(cfg: Config, inputs: seq<Input>, island: IslandKey, guid: int32)
    ensures var ps := Lookup(StateAfter(cfg, inputs).islands, island, guid);
      ps.Some? ==> FiniteDrop(ps.value)
  {
    StateIsHistory(cfg, inputs, island, guid);
    FollowFinite(cfg, None, island, guid, History(inputs, island, guid));
  }

  /** In every run, an event cannot be rendered exactly when it is one of a deficit rule and the balance it shows is not
      finite. */
  lemma UnrenderableIff(cfg: Config, inputs: seq<Input>, outputs: seq<seq<Event>>, i: nat, e: Event) returns (balance: Float)
    requires IsRun(cfg, inputs, outputs) && i < |inputs| && e in outputs[i]
    ensures e.alert.rule != ProductivityDrop ==> ShowsBalance(inputs, i, e, balance)
    ensures !Renderable(e.alert) <==> e.alert.rule != ProductivityDrop && !balance.Finite?
  {
    hide IsRun, StateAfter, OpenAlert;
    balance := e.alert.value;
    if e.alert.rule == ProductivityDrop {
      DropEventIsFinite(cfg, inputs, outputs, i, e);
    } else if inputs[i].Apply? {
      EventsAreCurrent(cfg, inputs, outputs, i, e);
    } else {
      ResetClears(cfg, inputs, outputs, i, e);
      OpenDeficitIsCurrent(cfg, inputs[..i], EventKey(e));
    }
  }

  // --- runs with finite balances ---

  ghost predicate FiniteBalances(inputs: seq<Input>) {
    forall i, p :: 0 <= i < |inputs| && inputs[i].Apply? && p in inputs[i].snap.products ==> FloatOf(p.delta).Finite?
  }

  lemma {:induction false} FiniteReads(inputs: seq<Input>, island: IslandKey, guid: int32)
    requires FiniteBalances(inputs)
    ensures forall o :: o in History(inputs, island, guid) && o.Read? ==> o.reading.delta.Finite?
  {
    if inputs != [] {
      var init, last := inputs[..|inputs| - 1], |inputs| - 1;
      FinitePrefix(inputs, last);
      assert inputs[last].Apply? ==> forall p :: p in inputs[last].snap.products ==> FloatOf(p.delta).Finite?;
      hide FloatOf, FiniteBalances, Observations;
      FiniteReads(init, island, guid);
      if inputs[last].Apply? {
        FiniteObserved(inputs[last].snap, island, guid);
      }
    }
  }

  lemma FiniteObserved(s: IslandSnapshot, island: IslandKey, guid: int32)
    requires forall p :: p in s.products ==> FloatOf(p.delta).Finite?
    ensures forall o :: o in Observations(s, island, guid) && o.Read? ==> o.reading.delta.Finite?
  {
    hide FloatOf;
    ByKeyMembers(s.products, GuidOf, guid);
    var entries := ByKey(s.products, GuidOf, guid);
    assert forall i :: 0 <= i < |entries| ==> entries[i] in entries;
  }

  lemma FinitePrefix(inputs: seq<Input>, n: nat)
    requires FiniteBalances(inputs) && n <= |inputs|
    ensures FiniteBalances(inputs[..n])
  {
    forall i, p | 0 <= i < n && inputs[..n][i].Apply? && p in inputs[..n][i].snap.products ensures FloatOf(p.delta).Finite? {
      assert inputs[..n][i] == inputs[i];
    }
  }

  /** With finite balances every open alert and every event can be rendered. */
  lemma FiniteIsOpen(cfg: Config, inputs: seq<Input>, key: AlertKey)
    requires FiniteBalances(inputs) && OpenAlert(StateAfter(cfg, inputs), key).Some?
    ensures Renderable(OpenAlert(StateAfter(cfg, inputs), key).value)
  {
    hide StateAfter, OpenAlert, FiniteBalances, History;
    if key.rule == ProductivityDrop {
      OpenDropIsFinite(cfg, inputs, key);
    } else {
      OpenDeficitIsCurrent(cfg, inputs, key);
      FiniteReads(inputs, key.island, key.guid);
    }
  }

  lemma FiniteIsEmitted(cfg: Config, inputs: seq<Input>, outputs: seq<seq<Event>>, i: nat, e: Event)
    requires IsRun(cfg, inputs, outputs) && FiniteBalances(inputs) && i < |inputs| && e in outputs[i]
    ensures Renderable(e.alert)
  {
    hide IsRun, StateAfter, OpenAlert, FloatOf;
    var balance := UnrenderableIff(cfg, inputs, outputs, i, e);
    if inputs[i].Reset? && e.alert.rule != ProductivityDrop {
      FinitePrefix(inputs, i);
      FiniteReads(inputs[..i], e.alert.island, e.alert.guid);
    }
  }

  lemma {:induction false} StreamMember(outputs: seq<seq<Event>>, e: Event) returns (i: nat)
    requires e in Stream(outputs)
    ensures i < |outputs| && e in outputs[i]
  {
    i := |outputs| - 1;
    if e !in outputs[i] {
      i := StreamMember(outputs[..|outputs| - 1], e);
    }
  }

  /** With finite balances a settled client has lost nothing exactly when its queue dropped nothing: this can be told
      from the inputs and the counter. */
  lemma LosslessIff(cfg: Config, inputs: seq<Input>, outputs: seq<seq<Event>>, v: View)
    requires Settled(cfg, inputs, outputs, v) && FiniteBalances(inputs)
    ensures Lossless(v) <==> v.dropped == 0
  {
    hide IsRun, StateAfter, Stream, FiniteBalances, Renderable, OpenList;
    forall o | o in v.offers ensures Renderable(o.event.alert) {
      var k :| 0 <= k < |v.offers| && v.offers[k] == o;
      assert Offered(v.offers)[k] == o.event && Stream(outputs)[v.since..][k] == Stream(outputs)[v.since + k];
      var i := StreamMember(outputs, o.event);
      assert |outputs| == |inputs|;
      FiniteIsEmitted(cfg, inputs, outputs, i, o.event);
    }
    var c := v.caughtUp.value;
    forall a | a in c.active ensures Renderable(a) {
      FinitePrefix(inputs, c.inputs);
      assert ByKey(c.active, KeyOf, KeyOf(a)) == OpenList(StateAfter(cfg, inputs[..c.inputs]), KeyOf(a));
      ByKeyMembers(c.active, KeyOf, KeyOf(a));
      CaughtUpFinite(cfg, inputs[..c.inputs], a);
    }
  }

  lemma CaughtUpFinite(cfg: Config, inputs: seq<Input>, a: Alert)
    requires FiniteBalances(inputs) && a in OpenList(StateAfter(cfg, inputs), KeyOf(a))
    ensures Renderable(a)
  {
    hide StateAfter, OpenAlert, FiniteBalances;
    FiniteIsOpen(cfg, inputs, KeyOf(a));
  }

  /** So in every run with finite balances, a page whose queue dropped nothing shows exactly the active keys. */
  lemma FinitePageConverges(cfg: Config, inputs: seq<Input>, outputs: seq<seq<Event>>, v: View, key: AlertKey)
    requires Settled(cfg, inputs, outputs, v) && FiniteBalances(inputs) && v.dropped == 0
    ensures key in v.picture <==> OpenAlert(StateAfter(cfg, inputs), key).Some?
    ensures key in v.picture ==> v.picture[key].raisedAt == OpenAlert(StateAfter(cfg, inputs), key).value.raisedAt
  {
    hide Settled, StateAfter, OpenAlert, Lossless, FiniteBalances;
    LosslessIff(cfg, inputs, outputs, v);
    PageConverges(cfg, inputs, outputs, v, key);
  }

  // --- a run that strands a page ---

  const MINUS_ONE: float32 := 0xBF80_0000
  const NOT_A_NUMBER: float32 := 0x7FC0_0000

  lemma {:induction false} TwoToPositive(e: int)
    ensures TwoTo(e) > 0.0
    decreases if e < 0 then -e else e
  {
    if e > 0 { TwoToPositive(e - 1); } else if e < 0 { TwoToPositive(e + 1); }
  }

  predicate Falls(delta: float32) { FloatOf(delta).Finite? && FloatOf(delta).Negative() }

  predicate IsLost(delta: float32) { FloatOf(delta) == NaN }

  lemma Patterns()
    ensures Falls(MINUS_ONE) && IsLost(NOT_A_NUMBER)
  {
    TwoToPositive(-23);
    hide TwoTo;
    assert FloatOf(MINUS_ONE) == Finite(-1.0 * 0x80_0000 as real * TwoTo(-23));
    assert FloatOf(NOT_A_NUMBER) == NaN;
  }

  /** One good with a building, this balance, and the same pattern for its productivity. */
  function Entry(guid: int32, delta: float32, productivity: float32): ProductStat {
    ProductStat(guid, 0, 0, delta, 0, 0, 1, 0, 0, 0, 0, productivity, map[], map[])
  }

  /** The good, island, name and time of the run, and two patterns: a negative number and one that is none. */
  datatype Scene = Scene(c: Context, low: float32, lost: float32) {
    predicate Valid() { Falls(low) && IsLost(lost) }

    function Key(): AlertKey { AlertKey(c.island, c.guid, Deficit) }

    function Tick(delta: float32): IslandSnapshot {
      IslandSnapshot(c.island, 0, 0, c.name, c.at, 0, [Entry(c.guid, delta, lost)])
    }

    function Ticks(delta: float32, n: nat): seq<Input> { seq(n, i => Apply(Tick(delta))) }

    /** A negative balance until the deficit is raised, then balances that are not numbers until it is cleared. */
    function Run(cfg: Config): seq<Input>
      requires Countable(cfg)
    {
      Ticks(low, cfg.deficitSamples) + Ticks(lost, cfg.deficitClearSamples)
    }

    lemma Snapshots(cfg: Config, i: nat)
      requires Countable(cfg) && i < |Run(cfg)|
      ensures Run(cfg)[i].Apply?
    {
    }

    function Reading(delta: float32): AlertRules.Reading { ReadingOf(Entry(c.guid, delta, lost)) }

    function ReadTick(delta: float32): Observation { Read(c.name, c.at, Reading(delta)) }

    function Reads(delta: float32, n: nat): seq<Observation> { seq(n, i => ReadTick(delta)) }

    function RaiseAlert(): Alert { RaisedAlert(c, Deficit, FloatOf(low)) }

    function ClearAlert(): Alert { RaiseAlert().(clearedAt := c.at, value := NaN) }

    /** The product after k negative balances. */
    function Falling(cfg: Config, k: nat): Product {
      NEW_PRODUCT.(negative := k, deficit := if k < cfg.deficitSamples then None else Some(RaiseAlert()))
    }

    /** And after j balances that are not numbers behind them. */
    function Lost(cfg: Config, j: nat): Product
      requires Countable(cfg)
    {
      NEW_PRODUCT.(nonNegative := j, negative := if j == 0 then cfg.deficitSamples else 0,
                   deficit := if j == 0 then Some(RaiseAlert())
                              else if j < cfg.deficitClearSamples then Some(RaiseAlert().(value := NaN))
                              else None)
    }
  }

  /** Such patterns exist: there is a scene for every island, good and time. */
  lemma SceneExists(c: Context) returns (s: Scene)
    ensures s.c == c && s.Valid()
  {
    Patterns();
    hide FloatOf;
    s := Scene(c, MINUS_ONE, NOT_A_NUMBER);
  }

  lemma TickObserved(s: Scene, delta: float32)
    ensures Observations(s.Tick(delta), s.c.island, s.c.guid) == [s.ReadTick(delta)]
  {
    hide FloatOf;
    assert ByKey([], GuidOf, s.c.guid) == [];
    assert ByKey(s.Tick(delta).products, GuidOf, s.c.guid) == [Entry(s.c.guid, delta, s.lost)];
  }

  lemma HistoryGrows(inputs: seq<Input>, snap: IslandSnapshot, island: IslandKey, guid: int32)
    ensures History(inputs + [Apply(snap)], island, guid) == History(inputs, island, guid) + Observations(snap, island, guid)
  {
    hide Observations;
    assert (inputs + [Apply(snap)])[..|inputs|] == inputs;
  }

  lemma {:induction false} TicksObserved(s: Scene, before: seq<Input>, delta: float32, n: nat)
    ensures History(before + s.Ticks(delta, n), s.c.island, s.c.guid) == History(before, s.c.island, s.c.guid) + s.Reads(delta, n)
  {
    hide Observations, History, Scene.Tick, Scene.ReadTick;
    var seen := History(before, s.c.island, s.c.guid);
    if n == 0 {
      assert before + s.Ticks(delta, n) == before && seen + s.Reads(delta, n) == seen;
    } else {
      TicksObserved(s, before, delta, n - 1);
      TickObserved(s, delta);
      HistoryGrows(before + s.Ticks(delta, n - 1), s.Tick(delta), s.c.island, s.c.guid);
      assert before + s.Ticks(delta, n) == before + s.Ticks(delta, n - 1) + [Apply(s.Tick(delta))];
      assert seen + s.Reads(delta, n) == seen + s.Reads(delta, n - 1) + [s.ReadTick(delta)];
    }
  }

  /** A good whose productivity is not a number leaves the drop rule alone. */
  lemma OnlyDeficits(s: Scene, cfg: Config, ps: Product, delta: float32)
    requires s.Valid()
    ensures Observe(cfg, Some(ps), s.c.island, s.c.guid, s.ReadTick(delta))
      == (Some(DeficitStep(cfg, ps, s.c, s.Reading(delta)).0), DeficitStep(cfg, ps, s.c, s.Reading(delta)).1)
  {
    hide FloatOf, DeficitStep;
    var (next, events) := DeficitStep(cfg, ps, s.c, s.Reading(delta));
    assert DropStep(cfg, next, s.c, s.Reading(delta)) == (next, []);
    assert events + [] == events;
  }

  lemma FallingStep(s: Scene, cfg: Config, k: nat)
    requires s.Valid() && Countable(cfg) && k < cfg.deficitSamples
    ensures Observe(cfg, Some(s.Falling(cfg, k)), s.c.island, s.c.guid, s.ReadTick(s.low))
      == (Some(s.Falling(cfg, k + 1)), if k + 1 == cfg.deficitSamples then [Event(Raised, s.RaiseAlert())] else [])
  {
    OnlyDeficits(s, cfg, s.Falling(cfg, k), s.low);
    hide FloatOf, Observe;
    var counted := CountStreak(s.Falling(cfg, k), FloatOf(s.low));
    assert EndOtherDeficit(counted, s.c, s.Reading(s.low)) == (counted, []);
    var events := JudgeDeficit(cfg, counted, s.c, s.Reading(s.low)).1;
    assert [] + events == events;
  }

  lemma {:induction false} FallingFollowed(s: Scene, cfg: Config, k: nat)
    requires s.Valid() && Countable(cfg) && 1 <= k <= cfg.deficitSamples
    ensures Follow(cfg, None, s.c.island, s.c.guid, s.Reads(s.low, k))
      == (Some(s.Falling(cfg, k)), if k == cfg.deficitSamples then [Event(Raised, s.RaiseAlert())] else [])
  {
    FirstSeen(s, cfg, s.low);
    assert Follow(cfg, None, s.c.island, s.c.guid, []) == (None, []);
    hide Follow, Observe, FloatOf, Scene.RaiseAlert, Scene.Falling, Scene.ReadTick;
    var init := s.Reads(s.low, k - 1);
    assert s.Reads(s.low, k) == init + [s.ReadTick(s.low)];
    FollowOneMore(cfg, None, s.c.island, s.c.guid, init, s.ReadTick(s.low));
    FallingStep(s, cfg, k - 1);
    var events := Observe(cfg, Some(s.Falling(cfg, k - 1)), s.c.island, s.c.guid, s.ReadTick(s.low)).1;
    assert [] + events == events;
    if k > 1 {
      FallingFollowed(s, cfg, k - 1);
    } else {
      assert init == [];
    }
  }

  lemma FirstSeen(s: Scene, cfg: Config, delta: float32)
    requires Countable(cfg)
    ensures Observe(cfg, None, s.c.island, s.c.guid, s.ReadTick(delta))
      == Observe(cfg, Some(s.Falling(cfg, 0)), s.c.island, s.c.guid, s.ReadTick(delta))
  {
    hide Step, FloatOf;
    assert s.Falling(cfg, 0) == NEW_PRODUCT;
  }

  lemma LostStep(s: Scene, cfg: Config, j: nat)
    requires s.Valid() && Countable(cfg) && j < cfg.deficitClearSamples
    ensures Observe(cfg, Some(s.Lost(cfg, j)), s.c.island, s.c.guid, s.ReadTick(s.lost))
      == (Some(s.Lost(cfg, j + 1)), if j + 1 == cfg.deficitClearSamples then [Event(Cleared, s.ClearAlert())] else [])
  {
    OnlyDeficits(s, cfg, s.Lost(cfg, j), s.lost);
    hide FloatOf, Observe;
    var counted := CountStreak(s.Lost(cfg, j), FloatOf(s.lost));
    assert EndOtherDeficit(counted, s.c, s.Reading(s.lost)) == (counted, []);
    var events := JudgeDeficit(cfg, counted, s.c, s.Reading(s.lost)).1;
    assert [] + events == events;
  }

  lemma {:induction false} LostFollowed(s: Scene, cfg: Config, j: nat)
    requires s.Valid() && Countable(cfg) && j <= cfg.deficitClearSamples
    ensures Follow(cfg, None, s.c.island, s.c.guid, s.Reads(s.low, cfg.deficitSamples) + s.Reads(s.lost, j))
      == (Some(s.Lost(cfg, j)),
          [Event(Raised, s.RaiseAlert())] + if j == cfg.deficitClearSamples then [Event(Cleared, s.ClearAlert())] else [])
  {
    var falls := s.Reads(s.low, cfg.deficitSamples);
    assert s.Lost(cfg, 0) == s.Falling(cfg, cfg.deficitSamples);
    hide Follow, Observe, FloatOf, Scene.RaiseAlert, Scene.ClearAlert, Scene.Falling, Scene.Lost, Scene.ReadTick;
    var raised := [Event(Raised, s.RaiseAlert())];
    assert raised + [] == raised;
    if j == 0 {
      assert falls + s.Reads(s.lost, j) == falls;
      FallingFollowed(s, cfg, cfg.deficitSamples);
    } else {
      var init := falls + s.Reads(s.lost, j - 1);
      assert falls + s.Reads(s.lost, j) == init + [s.ReadTick(s.lost)];
      LostFollowed(s, cfg, j - 1);
      LostStep(s, cfg, j - 1);
      FollowOneMore(cfg, None, s.c.island, s.c.guid, init, s.ReadTick(s.lost));
    }
  }

  lemma RunObserved(s: Scene, cfg: Config)
    requires Countable(cfg)
    ensures History(s.Run(cfg), s.c.island, s.c.guid)
      == s.Reads(s.low, cfg.deficitSamples) + s.Reads(s.lost, cfg.deficitClearSamples)
  {
    hide Scene.Tick, Scene.ReadTick;
    var falls := s.Ticks(s.low, cfg.deficitSamples);
    TicksObserved(s, [], s.low, cfg.deficitSamples);
    assert [] + falls == falls;
    assert [] + s.Reads(s.low, cfg.deficitSamples) == s.Reads(s.low, cfg.deficitSamples);
    TicksObserved(s, falls, s.lost, cfg.deficitClearSamples);
  }

  /** Without resets, the stream of a key is what following its product's history emits. */
  lemma {:induction false} StreamIsFollowed(cfg: Config, inputs: seq<Input>, outputs: seq<seq<Event>>, key: AlertKey)
    requires IsRun(cfg, inputs, outputs) && forall i :: 0 <= i < |inputs| ==> inputs[i].Apply?
    ensures ByKey(Stream(outputs), EventKey, key)
      == ByKey(Follow(cfg, None, key.island, key.guid, History(inputs, key.island, key.guid)).1, EventKey, key)
  {
    if inputs == [] {
      assert outputs == [];
    } else {
      var last := |inputs| - 1;
      var init, s := inputs[..last], inputs[last].snap;
      RunLast(cfg, inputs, outputs, key);
      StreamIsFollowed(cfg, init, outputs[..last], key);
      StateIsHistory(cfg, init, key.island, key.guid);
      var before, os := History(init, key.island, key.guid), Observations(s, key.island, key.guid);
      FollowAppend(cfg, None, key.island, key.guid, before, os);
      var start := Follow(cfg, None, key.island, key.guid, before);
      ByKeyAppend(start.1, Follow(cfg, start.0, key.island, key.guid, os).1, EventKey, key);
      ByKeyAppend(Stream(outputs[..last]), outputs[last], EventKey, key);
      if s.key != key.island {
        assert os == [];
      }
    }
  }

  /** For every configuration, good and island: the run emits one raise that can be rendered and one clear that cannot,
      and leaves nothing open. */
  lemma NaNRunEmits(s: Scene, cfg: Config, outputs: seq<seq<Event>>)
    requires s.Valid() && Countable(cfg) && IsRun(cfg, s.Run(cfg), outputs)
    ensures ByKey(Stream(outputs), EventKey, s.Key()) == [Event(Raised, s.RaiseAlert()), Event(Cleared, s.ClearAlert())]
    ensures Renderable(s.RaiseAlert()) && !Renderable(s.ClearAlert())
    ensures OpenAlert(StateAfter(cfg, s.Run(cfg)), s.Key()).None?
  {
    hide IsRun, StateAfter, Stream, FloatOf, Follow, History, Scene.Tick, Scene.ReadTick;
    RunObserved(s, cfg);
    LostFollowed(s, cfg, cfg.deficitClearSamples);
    StreamIsFollowed(cfg, s.Run(cfg), outputs, s.Key());
    StateIsHistory(cfg, s.Run(cfg), s.c.island, s.c.guid);
    TwoOfKey(Event(Raised, s.RaiseAlert()), Event(Cleared, s.ClearAlert()), s.Key());
  }

  lemma TwoOfKey(a: Event, b: Event, key: AlertKey)
    requires EventKey(a) == key && EventKey(b) == key
    ensures ByKey([a] + [b], EventKey, key) == [a, b]
  {
    assert ([a] + [b])[1..] == [b] && [b][1..] == [];
    assert ByKey([], EventKey, key) == [];
  }

  /** A client connected from the beginning of that run, whose queue dropped nothing, shows an alert that is over. */
  lemma NaNClearSticks(s: Scene, cfg: Config, outputs: seq<seq<Event>>, v: View)
    requires s.Valid() && Countable(cfg) && Settled(cfg, s.Run(cfg), outputs, v) && v.since == 0 && v.dropped == 0
    ensures s.Key() in v.picture && OpenAlert(StateAfter(cfg, s.Run(cfg)), s.Key()).None?
  {
    hide Settled, IsRun, StateAfter, Stream, OpenAlert, Scene.Valid, Scene.Run, Scene.RaiseAlert, Scene.ClearAlert, Renderable,
      FloatOf, ByKey;
    var inputs := s.Run(cfg);
    SettledIsRun(cfg, inputs, outputs, v);
    NaNRunEmits(s, cfg, outputs);
    TwoOffers(cfg, inputs, outputs, v, s.Key());
    OffersTaken(cfg, inputs, outputs, v, s.Key());
    MissedClearSticks(cfg, inputs, outputs, v, s.Key());
  }

  /** A client registered before a key's only two events was offered both. */
  lemma TwoOffers(cfg: Config, inputs: seq<Input>, outputs: seq<seq<Event>>, v: View, key: AlertKey)
    requires Settled(cfg, inputs, outputs, v) && v.since == 0 && |ByKey(Stream(outputs), EventKey, key)| == 2
    ensures var offers, all := ByKey(v.offers, OfferKey, key), ByKey(Stream(outputs), EventKey, key);
      |offers| == 2 && offers[0].event == all[0] && offers[1].event == all[1]
  {
    hide Settled, Stream;
    OfferedIsTail(cfg, inputs, outputs, v, key);
    assert Stream(outputs)[..0] == [];
    assert ByKey([], EventKey, key) == [];
    hide ByKey;
  }

  lemma OffersTaken(cfg: Config, inputs: seq<Input>, outputs: seq<seq<Event>>, v: View, key: AlertKey)
    requires Settled(cfg, inputs, outputs, v) && v.dropped == 0
    ensures var offers := ByKey(v.offers, OfferKey, key);
      forall i :: 0 <= i < |offers| ==> (offers[i].taken <==> Renderable(offers[i].event.alert))
  {
    hide IsRun, StateAfter, Stream;
    ByKeyMembers(v.offers, OfferKey, key);
    var offers := ByKey(v.offers, OfferKey, key);
    assert forall i :: 0 <= i < |offers| ==> offers[i] in offers;
  }
}
