/** The rule engine over whole runs: its state as a function of the snapshots it was given,
    and the stream of events it must emit. */
module AlertRuns {
  import opened Model
  import opened Sorting
  import opened AlertRules

  type Products = map<int32, Product>

  datatype EngineState = EngineState(islands: map<IslandKey, Products>, newest: Time)

  const NEW_ENGINE := EngineState(map[], ZeroTime)

  datatype Input = Apply(snap: IslandSnapshot) | Reset(now: Time)

  /** What one snapshot means for one product: a reading for each of its entries, or, when the
      snapshot has goods but not this one, that its buildings are gone. */
  datatype Observation = Read(name: seq<byte>, at: Time, reading: Reading) | Gone(at: Time)

  function Reads(entries: seq<ProductStat>, s: IslandSnapshot): seq<Observation> {
    seq(|entries|, i requires 0 <= i < |entries| => Read(s.name, s.receivedAt, ReadingOf(entries[i])))
  }

  function Observations(s: IslandSnapshot, island: IslandKey, guid: int32): seq<Observation> {
    var entries := ByKey(s.products, GuidOf, guid);
    if s.key != island then []
    else if entries == [] && s.products != [] then [Gone(s.receivedAt)]
    else Reads(entries, s)
  }

  /** Everything the engine has observed of one product since the last reset. */
  function History(inputs: seq<Input>, island: IslandKey, guid: int32): seq<Observation> {
    if inputs == [] then []
    else match inputs[|inputs| - 1]
      case Apply(s) => History(inputs[..|inputs| - 1], island, guid) + Observations(s, island, guid)
      case Reset(_) => []
  }

  function Observe(cfg: Config, ps: Option<Product>, island: IslandKey, guid: int32, o: Observation)
    : (Option<Product>, seq<Event>)
  {
    match o
    case Read(name, at, r) =>
      var (next, events) := Step(cfg, if ps.Some? then ps.value else NEW_PRODUCT, Context(island, name, guid, at), r);
      (Some(next), events)
    case Gone(at) =>
      if ps.None? then (None, [])
      else var (next, events) := EndDrop(ps.value, at); (Some(next), events)
  }

  /** One product through a sequence of observations: its state and its events in order. */
  function Follow(cfg: Config, ps: Option<Product>, island: IslandKey, guid: int32, os: seq<Observation>)
    : (Option<Product>, seq<Event>)
  {
    if os == [] then (ps, [])
    else
      var (before, events) := Follow(cfg, ps, island, guid, os[..|os| - 1]);
      var (after, more) := Observe(cfg, before, island, guid, os[|os| - 1]);
      (after, events + more)
  }

  function Lookup(islands: map<IslandKey, Products>, island: IslandKey, guid: int32): Option<Product> {
    if island in islands && guid in islands[island] then Some(islands[island][guid]) else None
  }

  function Guids(s: IslandSnapshot): set<int32> { set p | p in s.products :: p.guid }

  function KnownProducts(st: EngineState, island: IslandKey): Products {
    if island in st.islands then st.islands[island] else map[]
  }

  /** The products of an island after a snapshot of it: each product goes its own way. */
  function NextProducts(cfg: Config, st: EngineState, s: IslandSnapshot): Products {
    map guid: int32 | guid in KnownProducts(st, s.key).Keys + Guids(s) ::
      match Follow(cfg, Lookup(st.islands, s.key, guid), s.key, guid, Observations(s, s.key, guid)).0
      case Some(p) => p
      case None => NEW_PRODUCT
  }

  function After(cfg: Config, st: EngineState, input: Input): EngineState {
    match input
    case Apply(s) =>
      EngineState(st.islands[s.key := NextProducts(cfg, st, s)],
                  if s.receivedAt > st.newest then s.receivedAt else st.newest)
    case Reset(_) => NEW_ENGINE
  }

  function StateAfter(cfg: Config, inputs: seq<Input>): EngineState {
    if inputs == [] then NEW_ENGINE
    else After(cfg, StateAfter(cfg, inputs[..|inputs| - 1]), inputs[|inputs| - 1])
  }

  function OpenIn(ps: Product, rule: Rule): Option<Alert> {
    if rule == ProductivityDrop then ps.drop
    else if ps.deficit.Some? && ps.deficit.value.rule == rule then ps.deficit
    else None
  }

  /** The open alert with this key, if there is one. */
  function OpenAlert(st: EngineState, key: AlertKey): Option<Alert> {
    match Lookup(st.islands, key.island, key.guid)
    case Some(ps) => OpenIn(ps, key.rule)
    case None => None
  }

  function OpenList(st: EngineState, key: AlertKey): seq<Alert> {
    match OpenAlert(st, key) case Some(a) => [a] case None => []
  }

  /** The list of active alerts: ordered by key, and for each key its open alert if it has one. */
  ghost predicate ListsActive(st: EngineState, active: seq<Alert>) {
    && Sorted(active, KeyOf, AlertLeq)
    && forall key: AlertKey :: ByKey(active, KeyOf, key) == OpenList(st, key)
  }

  /** Alerts cleared by a reset are stamped with the newest snapshot, or with the wall clock. */
  function ResetTime(st: EngineState, now: Time): Time {
    if st.newest == ZeroTime then now else st.newest
  }

  /** The events of one key that an input must produce, in order. */
  function KeyEvents(cfg: Config, st: EngineState, input: Input, key: AlertKey): seq<Event> {
    match input
    case Apply(s) =>
      ByKey(Follow(cfg, Lookup(st.islands, s.key, key.guid), s.key, key.guid, Observations(s, key.island, key.guid)).1,
            EventKey, key)
    case Reset(now) =>
      match OpenAlert(st, key)
      case Some(a) => [Event(Cleared, a.(clearedAt := ResetTime(st, now)))]
      case None => []
  }

  /** What the engine returns for an input: ordered by key, and for each key exactly its events. */
  ghost predicate Emits(cfg: Config, st: EngineState, input: Input, events: seq<Event>) {
    && Sorted(events, EventKey, AlertLeq)
    && forall key: AlertKey :: ByKey(events, EventKey, key) == KeyEvents(cfg, st, input, key)
  }

  ghost predicate IsRun(cfg: Config, inputs: seq<Input>, outputs: seq<seq<Event>>) {
    && |inputs| == |outputs|
    && forall i :: 0 <= i < |inputs| ==> Emits(cfg, StateAfter(cfg, inputs[..i]), inputs[i], outputs[i])
  }

  function Stream(outputs: seq<seq<Event>>): seq<Event> {
    if outputs == [] then [] else Stream(outputs[..|outputs| - 1]) + outputs[|outputs| - 1]
  }

  lemma AlertOrder()
    ensures TotalOrder(AlertLeq)
  {
  }

  /** The order in which maps are walked cannot show: a run has one output. */
  lemma OutputsDetermined(cfg: Config, inputs: seq<Input>, a: seq<seq<Event>>, b: seq<seq<Event>>)
    requires IsRun(cfg, inputs, a) && IsRun(cfg, inputs, b)
    ensures a == b
  {
    AlertOrder();
    forall i | 0 <= i < |inputs| ensures a[i] == b[i] {
      SortedUnique(a[i], b[i], EventKey, AlertLeq);
    }
  }

  // --- each product's state is a function of its own history ---

  lemma {:induction false} FollowAppend(cfg: Config, ps: Option<Product>, island: IslandKey, guid: int32,
                                        a: seq<Observation>, b: seq<Observation>)
    ensures Follow(cfg, ps, island, guid, a + b).0 == Follow(cfg, Follow(cfg, ps, island, guid, a).0, island, guid, b).0
    ensures Follow(cfg, ps, island, guid, a + b).1
         == Follow(cfg, ps, island, guid, a).1 + Follow(cfg, Follow(cfg, ps, island, guid, a).0, island, guid, b).1
  {
    hide Observe;
    if b == [] {
      assert a + b == a;
    } else {
      assert (a + b)[..|a + b| - 1] == a + b[..|b| - 1];
      FollowAppend(cfg, ps, island, guid, a, b[..|b| - 1]);
    }
  }

  lemma FollowOneMore(cfg: Config, ps: Option<Product>, island: IslandKey, guid: int32, os: seq<Observation>, o: Observation)
    ensures Follow(cfg, ps, island, guid, os + [o]) ==
      var before := Follow(cfg, ps, island, guid, os);
      var next := Observe(cfg, before.0, island, guid, o);
      (next.0, before.1 + next.1)
  {
    assert (os + [o])[..|os|] == os;
  }

  lemma {:induction false} FollowPresence(cfg: Config, ps: Option<Product>, island: IslandKey, guid: int32, os: seq<Observation>)
    ensures Follow(cfg, ps, island, guid, os).0.Some? <==> ps.Some? || exists i :: 0 <= i < |os| && os[i].Read?
  {
    if os != [] {
      FollowPresence(cfg, ps, island, guid, os[..|os| - 1]);
    }
  }

  lemma ReadIffListed(s: IslandSnapshot, guid: int32)
    ensures guid in Guids(s) <==>
      exists i :: 0 <= i < |Observations(s, s.key, guid)| && Observations(s, s.key, guid)[i].Read?
  {
    var entries := ByKey(s.products, GuidOf, guid);
    ByKeyMembers(s.products, GuidOf, guid);
    if guid in Guids(s) {
      var p :| p in s.products && p.guid == guid;
      assert p in entries;
      assert Observations(s, s.key, guid)[0].Read?;
    } else {
      assert entries == [];
    }
  }

  lemma LookupAfter(cfg: Config, st: EngineState, s: IslandSnapshot, island: IslandKey, guid: int32)
    ensures Lookup(After(cfg, st, Apply(s)).islands, island, guid)
         == Follow(cfg, Lookup(st.islands, island, guid), island, guid, Observations(s, island, guid)).0
  {
    hide Observe;
    if island == s.key {
      var os := Observations(s, island, guid);
      ReadIffListed(s, guid);
      FollowPresence(cfg, Lookup(st.islands, island, guid), island, guid, os);
      hide Observations, Follow;
      assert guid in NextProducts(cfg, st, s) <==> guid in KnownProducts(st, s.key).Keys + Guids(s);
    }
  }

  /** The engine's state for a product depends on that product's own history and nothing else. */
  lemma {:induction false} StateIsHistory(cfg: Config, inputs: seq<Input>, island: IslandKey, guid: int32)
    ensures Lookup(StateAfter(cfg, inputs).islands, island, guid)
         == Follow(cfg, None, island, guid, History(inputs, island, guid)).0
  {
    if inputs != [] {
      var before := inputs[..|inputs| - 1];
      StateIsHistory(cfg, before, island, guid);
      match inputs[|inputs| - 1]
      case Reset(_) =>
      case Apply(s) =>
        LookupAfter(cfg, StateAfter(cfg, before), s, island, guid);
        FollowAppend(cfg, None, island, guid, History(before, island, guid), Observations(s, island, guid));
    }
  }

  // --- raised and cleared alternate ---

  /** The product's open alerts carry its own key, the severity of their rule and no end time. */
  predicate WellKeyed(ps: Product, island: IslandKey, guid: int32) {
    && (ps.deficit.Some? ==>
          var a := ps.deficit.value;
          a.island == island && a.guid == guid && a.rule != ProductivityDrop
          && a.severity == (if a.rule == NoLocalProduction then Info else Warning) && a.clearedAt == ZeroTime)
    && (ps.drop.Some? ==>
          var a := ps.drop.value;
          a.island == island && a.guid == guid && a.rule == ProductivityDrop
          && a.severity == Warning && a.clearedAt == ZeroTime)
  }

  /** What a reader of one key's events knows: nothing open, open since a time, or a stream that makes no sense. */
  datatype Monitor = Quiet | Open(raisedAt: Time) | Broken

  function Hear(m: Monitor, e: Event): Monitor {
    match e.kind
    case Raised => if m.Quiet? && e.alert.clearedAt == ZeroTime then Open(e.alert.raisedAt) else Broken
    case Cleared => if m.Open? && m.raisedAt == e.alert.raisedAt then Quiet else Broken
  }

  function HearAll(m: Monitor, events: seq<Event>): Monitor {
    if events == [] then m else Hear(HearAll(m, events[..|events| - 1]), events[|events| - 1])
  }

  function MonitorOf(open: Option<Alert>): Monitor {
    if open.Some? then Open(open.value.raisedAt) else Quiet
  }

  lemma {:induction false} HearAppend(m: Monitor, a: seq<Event>, b: seq<Event>)
    ensures HearAll(m, a + b) == HearAll(HearAll(m, a), b)
  {
    if b == [] {
      assert a + b == a;
    } else {
      assert (a + b)[..|a + b| - 1] == a + b[..|b| - 1];
      HearAppend(m, a, b[..|b| - 1]);
    }
  }

  lemma HearOne(m: Monitor, e: Event, key: AlertKey)
    ensures HearAll(m, ByKey([e], EventKey, key)) == if EventKey(e) == key then Hear(m, e) else m
  {
    assert [e][..0] == [];
    assert ByKey([e], EventKey, key) == if EventKey(e) == key then [e] else [];
  }

  lemma HearNone(m: Monitor, key: AlertKey)
    ensures HearAll(m, ByKey([], EventKey, key)) == m
  {
  }

  lemma HearKeyAppend(m: Monitor, a: seq<Event>, b: seq<Event>, key: AlertKey)
    ensures HearAll(m, ByKey(a + b, EventKey, key)) == HearAll(HearAll(m, ByKey(a, EventKey, key)), ByKey(b, EventKey, key))
  {
    ByKeyAppend(a, b, EventKey, key);
    HearAppend(m, ByKey(a, EventKey, key), ByKey(b, EventKey, key));
  }

  lemma EndOtherHeard(ps: Product, c: Context, r: Reading, key: AlertKey)
    requires WellKeyed(ps, c.island, c.guid) && key.island == c.island && key.guid == c.guid
    ensures
      var (next, events) := EndOtherDeficit(ps, c, r);
      && WellKeyed(next, c.island, c.guid)
      && (forall e :: e in events ==> e.alert.island == c.island && e.alert.guid == c.guid)
      && HearAll(MonitorOf(OpenIn(ps, key.rule)), ByKey(events, EventKey, key)) == MonitorOf(OpenIn(next, key.rule))
  {
    var (ended, events) := EndOtherDeficit(ps, c, r);
    if events != [] { HearOne(MonitorOf(OpenIn(ps, key.rule)), events[0], key); }
  }

  lemma JudgeDeficitHeard(cfg: Config, ps: Product, c: Context, r: Reading, key: AlertKey)
    requires WellKeyed(ps, c.island, c.guid) && key.island == c.island && key.guid == c.guid
    ensures
      var (next, events) := JudgeDeficit(cfg, ps, c, r);
      && WellKeyed(next, c.island, c.guid)
      && (forall e :: e in events ==> e.alert.island == c.island && e.alert.guid == c.guid)
      && HearAll(MonitorOf(OpenIn(ps, key.rule)), ByKey(events, EventKey, key)) == MonitorOf(OpenIn(next, key.rule))
  {
    var (judged, events) := JudgeDeficit(cfg, ps, c, r);
    if events != [] { HearOne(MonitorOf(OpenIn(ps, key.rule)), events[0], key); }
  }

  lemma DeficitStepHeard(cfg: Config, ps: Product, c: Context, r: Reading, key: AlertKey)
    requires WellKeyed(ps, c.island, c.guid) && key.island == c.island && key.guid == c.guid
    ensures
      var (next, events) := DeficitStep(cfg, ps, c, r);
      && WellKeyed(next, c.island, c.guid)
      && (forall e :: e in events ==> e.alert.island == c.island && e.alert.guid == c.guid)
      && HearAll(MonitorOf(OpenIn(ps, key.rule)), ByKey(events, EventKey, key)) == MonitorOf(OpenIn(next, key.rule))
  {
    hide EndOtherDeficit, JudgeDeficit, ByKey, HearAll;
    var counted := CountStreak(ps, r.delta);
    var (ended, clearings) := EndOtherDeficit(counted, c, r);
    EndOtherHeard(counted, c, r, key);
    JudgeDeficitHeard(cfg, ended, c, r, key);
    HearKeyAppend(MonitorOf(OpenIn(ps, key.rule)), clearings, JudgeDeficit(cfg, ended, c, r).1, key);
  }

  lemma JudgeDropHeard(cfg: Config, ps: Product, c: Context, prod: real, mean: real, n: nat, key: AlertKey)
    requires WellKeyed(ps, c.island, c.guid) && key.island == c.island && key.guid == c.guid
    ensures
      var (next, events) := JudgeDrop(cfg, ps, c, prod, mean, n);
      && WellKeyed(next, c.island, c.guid)
      && (forall e :: e in events ==> e.alert.island == c.island && e.alert.guid == c.guid)
      && HearAll(MonitorOf(OpenIn(ps, key.rule)), ByKey(events, EventKey, key)) == MonitorOf(OpenIn(next, key.rule))
  {
    var (judged, events) := JudgeDrop(cfg, ps, c, prod, mean, n);
    if events != [] { HearOne(MonitorOf(OpenIn(ps, key.rule)), events[0], key); }
  }

  lemma EndDropHeard(ps: Product, at: Time, island: IslandKey, guid: int32, key: AlertKey)
    requires WellKeyed(ps, island, guid) && key.island == island && key.guid == guid
    ensures
      var (next, events) := EndDrop(ps, at);
      && WellKeyed(next, island, guid)
      && (forall e :: e in events ==> e.alert.island == island && e.alert.guid == guid)
      && HearAll(MonitorOf(OpenIn(ps, key.rule)), ByKey(events, EventKey, key)) == MonitorOf(OpenIn(next, key.rule))
  {
    var (ended, events) := EndDrop(ps, at);
    if events != [] { HearOne(MonitorOf(OpenIn(ps, key.rule)), events[0], key); }
  }

  lemma DropStepHeard(cfg: Config, ps: Product, c: Context, r: Reading, key: AlertKey)
    requires WellKeyed(ps, c.island, c.guid) && key.island == c.island && key.guid == c.guid
    ensures
      var (next, events) := DropStep(cfg, ps, c, r);
      && WellKeyed(next, c.island, c.guid)
      && (forall e :: e in events ==> e.alert.island == c.island && e.alert.guid == c.guid)
      && HearAll(MonitorOf(OpenIn(ps, key.rule)), ByKey(events, EventKey, key)) == MonitorOf(OpenIn(next, key.rule))
  {
    hide Prune, Mean, Idle, Elapsed, ByKey, HearAll, AppendSample, Capped, JudgeDrop, EndDrop;
    if r.buildings == 0 {
      EndDropHeard(ps, c.at, c.island, c.guid, key);
    } else if r.productivity.Finite? {
      var prod := Capped(r.productivity.value);
      var base := Baseline(cfg, ps, c, r.delta, prod);
      JudgeDropHeard(cfg, base, c, prod, Mean(base.samples), |base.samples|, key);
    } else {
      HearNone(MonitorOf(OpenIn(ps, key.rule)), key);
    }
  }

  lemma ObserveHeard(cfg: Config, ps: Option<Product>, island: IslandKey, guid: int32, o: Observation, key: AlertKey)
    requires ps.Some? ==> WellKeyed(ps.value, island, guid)
    requires key.island == island && key.guid == guid
    ensures
      var (next, events) := Observe(cfg, ps, island, guid, o);
      && (next.Some? ==> WellKeyed(next.value, island, guid))
      && (forall e :: e in events ==> e.alert.island == island && e.alert.guid == guid)
      && HearAll(MonitorOf(OpenOf(ps, key.rule)), ByKey(events, EventKey, key)) == MonitorOf(OpenOf(next, key.rule))
  {
    match o
    case Read(name, at, r) =>
      var c := Context(island, name, guid, at);
      var before := if ps.Some? then ps.value else NEW_PRODUCT;
      var (counted, deficits) := DeficitStep(cfg, before, c, r);
      DeficitStepHeard(cfg, before, c, r, key);
      DropStepHeard(cfg, counted, c, r, key);
      HearKeyAppend(MonitorOf(OpenIn(before, key.rule)), deficits, DropStep(cfg, counted, c, r).1, key);
    case Gone(at) =>
      if ps.Some? {
        EndDropHeard(ps.value, at, island, guid, key);
      }
  }

  function OpenOf(ps: Option<Product>, rule: Rule): Option<Alert> {
    if ps.Some? then OpenIn(ps.value, rule) else None
  }

  lemma {:induction false} FollowHeard(cfg: Config, ps: Option<Product>, island: IslandKey, guid: int32,
                                       os: seq<Observation>, key: AlertKey)
    requires ps.Some? ==> WellKeyed(ps.value, island, guid)
    requires key.island == island && key.guid == guid
    ensures
      var (next, events) := Follow(cfg, ps, island, guid, os);
      && (next.Some? ==> WellKeyed(next.value, island, guid))
      && (forall e :: e in events ==> e.alert.island == island && e.alert.guid == guid)
      && HearAll(MonitorOf(OpenOf(ps, key.rule)), ByKey(events, EventKey, key)) == MonitorOf(OpenOf(next, key.rule))
  {
    if os != [] {
      var (before, events) := Follow(cfg, ps, island, guid, os[..|os| - 1]);
      FollowHeard(cfg, ps, island, guid, os[..|os| - 1], key);
      ObserveHeard(cfg, before, island, guid, os[|os| - 1], key);
      HearKeyAppend(MonitorOf(OpenOf(ps, key.rule)), events, Observe(cfg, before, island, guid, os[|os| - 1]).1, key);
    }
  }

  lemma ProductWellKeyed(cfg: Config, inputs: seq<Input>, island: IslandKey, guid: int32)
    ensures var ps := Lookup(StateAfter(cfg, inputs).islands, island, guid);
      ps.Some? ==> WellKeyed(ps.value, island, guid)
  {
    StateIsHistory(cfg, inputs, island, guid);
    FollowHeard(cfg, None, island, guid, History(inputs, island, guid), AlertKey(island, guid, Deficit));
  }

  lemma StepHeard(cfg: Config, inputs: seq<Input>, input: Input, key: AlertKey)
    ensures HearAll(MonitorOf(OpenAlert(StateAfter(cfg, inputs), key)), KeyEvents(cfg, StateAfter(cfg, inputs), input, key))
         == MonitorOf(OpenAlert(After(cfg, StateAfter(cfg, inputs), input), key))
  {
    var st := StateAfter(cfg, inputs);
    ProductWellKeyed(cfg, inputs, key.island, key.guid);
    match input
    case Apply(s) =>
      LookupAfter(cfg, st, s, key.island, key.guid);
      FollowHeard(cfg, Lookup(st.islands, key.island, key.guid), key.island, key.guid,
                  Observations(s, key.island, key.guid), key);
    case Reset(now) =>
      var m := MonitorOf(OpenAlert(st, key));
      match OpenAlert(st, key)
      case None =>
      case Some(a) => HearOne(m, Event(Cleared, a.(clearedAt := ResetTime(st, now))), key);
  }

  lemma RunPrefix(cfg: Config, inputs: seq<Input>, outputs: seq<seq<Event>>, n: nat)
    requires IsRun(cfg, inputs, outputs) && n <= |inputs|
    ensures IsRun(cfg, inputs[..n], outputs[..n])
  {
    forall i | 0 <= i < n ensures Emits(cfg, StateAfter(cfg, inputs[..n][..i]), inputs[..n][i], outputs[..n][i]) {
      assert inputs[..n][..i] == inputs[..i];
    }
  }

  lemma RunLast(cfg: Config, inputs: seq<Input>, outputs: seq<seq<Event>>, key: AlertKey)
    requires IsRun(cfg, inputs, outputs) && inputs != []
    ensures |outputs| == |inputs|
    ensures var last := |inputs| - 1;
      && IsRun(cfg, inputs[..last], outputs[..last])
      && Emits(cfg, StateAfter(cfg, inputs[..last]), inputs[last], outputs[last])
      && ByKey(outputs[last], EventKey, key) == KeyEvents(cfg, StateAfter(cfg, inputs[..last]), inputs[last], key)
  {
    RunPrefix(cfg, inputs, outputs, |inputs| - 1);
  }

  lemma {:induction false} RunHeard(cfg: Config, inputs: seq<Input>, outputs: seq<seq<Event>>, key: AlertKey)
    requires IsRun(cfg, inputs, outputs)
    ensures HearAll(Quiet, ByKey(Stream(outputs), EventKey, key)) == MonitorOf(OpenAlert(StateAfter(cfg, inputs), key))
  {
    if inputs != [] {
      hide IsRun, Emits, KeyEvents, OpenAlert, ByKey, HearAll, After;
      var last := |inputs| - 1;
      RunLast(cfg, inputs, outputs, key);
      RunHeard(cfg, inputs[..last], outputs[..last], key);
      StepHeard(cfg, inputs[..last], inputs[last], key);
      HearKeyAppend(Quiet, Stream(outputs[..last]), outputs[last], key);
    }
  }

  /** The events of one key strictly alternate, starting with a raise, and every clear names the raise it ends. */
  ghost predicate Alternates(events: seq<Event>) {
    && (forall i :: 0 <= i < |events| ==> (events[i].kind == Raised <==> i % 2 == 0))
    && (forall i :: 0 < i < |events| && events[i].kind == Cleared ==> events[i].alert.raisedAt == events[i - 1].alert.raisedAt)
  }

  lemma {:induction false} HeardAlternates(events: seq<Event>)
    requires HearAll(Quiet, events) != Broken
    ensures Alternates(events)
    ensures HearAll(Quiet, events) == Quiet <==> |events| % 2 == 0
    ensures HearAll(Quiet, events).Open? ==>
      events != [] && events[|events| - 1].kind == Raised
      && HearAll(Quiet, events).raisedAt == events[|events| - 1].alert.raisedAt
  {
    if events != [] {
      var last := |events| - 1;
      HeardAlternates(events[..last]);
      forall i | 0 <= i < last ensures events[i] == events[..last][i] {
      }
    }
  }

  /** For every run and every (island, product, rule): the events alternate raised and cleared starting with
      raised, each cleared event carries the time of its raise, and the key is active exactly when its last
      event was a raise. */
  lemma EventsAlternate(cfg: Config, inputs: seq<Input>, outputs: seq<seq<Event>>, key: AlertKey)
    requires IsRun(cfg, inputs, outputs)
    ensures
      var events := ByKey(Stream(outputs), EventKey, key);
      var open := OpenAlert(StateAfter(cfg, inputs), key);
      && Alternates(events)
      && (open.Some? <==> events != [] && events[|events| - 1].kind == Raised)
      && (open.Some? ==> KeyOf(open.value) == key && open.value.raisedAt == events[|events| - 1].alert.raisedAt)
  {
    RunHeard(cfg, inputs, outputs, key);
    HeardAlternates(ByKey(Stream(outputs), EventKey, key));
    ProductWellKeyed(cfg, inputs, key.island, key.guid);
  }
}
