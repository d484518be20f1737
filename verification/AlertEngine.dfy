/** The rule engine as the program runs it: product states updated in place, maps walked in any order. */
module AlertEngine {
  import opened Model
  import opened Sorting
  import opened AlertRules
  import opened AlertRuns

  method MeanOf(samples: seq<Sample>) returns (mean: real, n: nat)
    ensures mean == Mean(samples) && n == |samples|
  {
    if samples == [] {
      return 0.0, 0;
    }
    var sum := 0.0;
    for i := 0 to |samples|
      invariant sum == Sum(samples[..i])
    {
      assert samples[..i + 1][..i] == samples[..i];
      sum := sum + samples[i].value;
    }
    assert samples[..|samples|] == samples;
    return sum / |samples| as real, |samples|;
  }

  method PruneOld(samples: seq<Sample>, cutoff: int) returns (kept: seq<Sample>)
    ensures kept == Prune(samples, cutoff)
  {
    var cut := 0;
    while cut < |samples| && samples[cut].at < cutoff
      invariant cut <= |samples|
      invariant Prune(samples, cutoff) == Prune(samples[cut..], cutoff)
    {
      assert samples[cut..][1..] == samples[cut + 1..];
      cut := cut + 1;
    }
    kept := samples[cut..];
  }

  /** One product's rule state. */
  class ProductState {
    var negative: nat
    var nonNegative: nat
    var deficit: Option<Alert>
    var samples: seq<Sample>
    var drop: Option<Alert>
    var clock: int
    var lastSeen: Time

    constructor ()
      ensures Value() == NEW_PRODUCT
    {
      negative, nonNegative, deficit := 0, 0, None;
      samples, drop, clock, lastSeen := [], None, 0, ZeroTime;
    }

    function Value(): Product
      reads this
    {
      Product(negative, nonNegative, deficit, samples, drop, clock, lastSeen)
    }

    method ApplyDeficit(cfg: Config, c: Context, r: Reading) returns (events: seq<Event>)
      modifies this
      ensures (Value(), events) == DeficitStep(cfg, old(Value()), c, r)
    {
      events := [];
      if r.delta.Negative() {
        negative := negative + 1;
        nonNegative := 0;
      } else {
        nonNegative := nonNegative + 1;
        negative := 0;
      }
      ghost var (ended, clearings) := EndOtherDeficit(Value(), c, r);
      var rule := DeficitRule(r.buildings);
      if deficit.Some? && deficit.value.rule != rule {
        events := [Event(Cleared, deficit.value.(clearedAt := c.at, value := r.delta))];
        deficit := None;
      }
      assert Value() == ended && events == clearings == clearings + [];
      if deficit.None? && negative >= cfg.deficitSamples {
        var a := RaisedAlert(c, rule, r.delta);
        deficit := Some(a);
        events := events + [Event(Raised, a)];
      } else if deficit.Some? && nonNegative >= cfg.deficitClearSamples {
        events := events + [Event(Cleared, deficit.value.(clearedAt := c.at, value := r.delta))];
        deficit := None;
      } else if deficit.Some? {
        deficit := Some(deficit.value.(islandName := c.name, value := r.delta));
      }
    }

    method ApplyDrop(cfg: Config, c: Context, r: Reading) returns (events: seq<Event>)
      modifies this
      ensures (Value(), events) == DropStep(cfg, old(Value()), c, r)
    {
      hide Mean, Prune;
      if r.buildings == 0 {
        events := EndDrop(c.at);
        return;
      }
      if !r.productivity.Finite? {
        return [];
      }
      var prod := Capped(r.productivity.value);
      var step := Elapsed(Value(), c.at);
      lastSeen := c.at;
      var mean, n := MeanOf(samples);
      var idle := r.delta.AtLeastZero() && n > 0 && prod < mean;
      if !idle {
        clock := clock + step;
        samples := PruneOld(samples, clock - cfg.dropWindow);
        mean, n := MeanOf(samples);
      }
      events := JudgeDrop(cfg, c, prod, mean, n);
      if !idle {
        samples := AppendSample(samples, Sample(clock, prod));
      }
    }

    method JudgeDrop(cfg: Config, c: Context, prod: real, mean: real, n: nat) returns (events: seq<Event>)
      modifies this
      ensures (Value(), events) == AlertRules.JudgeDrop(cfg, old(Value()), c, prod, mean, n)
    {
      if drop.Some? && nonNegative >= cfg.deficitClearSamples {
        events := ClearDrop(c.at, prod);
        return;
      }
      if n < cfg.minSamplesForDrop {
        return [];
      }
      var gap := Finite(mean - prod);
      if drop.None? && cfg.dropPercentagePoints.Less(gap) && negative >= cfg.dropNegativeSamples {
        var a := RaisedAlert(c, ProductivityDrop, Finite(prod));
        drop := Some(a);
        return [Event(Raised, a)];
      } else if drop.Some? && gap.AtMost(cfg.dropClearPercentagePoints) {
        events := ClearDrop(c.at, prod);
      } else {
        if drop.Some? {
          drop := Some(drop.value.(islandName := c.name, value := Finite(prod)));
        }
        events := [];
      }
    }

    method ClearDrop(at: Time, prod: real) returns (events: seq<Event>)
      requires drop.Some?
      modifies this
      ensures (Value(), events) == AlertRules.ClearDrop(old(Value()), at, prod)
    {
      events := [Event(Cleared, drop.value.(clearedAt := at, value := Finite(prod)))];
      drop := None;
    }

    method EndDrop(at: Time) returns (events: seq<Event>)
      modifies this
      ensures (Value(), events) == AlertRules.EndDrop(old(Value()), at)
    {
      samples, clock, lastSeen := [], 0, ZeroTime;
      events := [];
      if drop.Some? {
        events := [Event(Cleared, drop.value.(clearedAt := at))];
        drop := None;
      }
    }
  }

  // --- the products of one island ---

  ghost predicate Distinct(products: map<int32, ProductState>) {
    forall g, h :: g in products && h in products && g != h ==> products[g] != products[h]
  }

  ghost function Objects(products: map<int32, ProductState>): set<ProductState> {
    set g | g in products :: products[g]
  }

  function Values(products: map<int32, ProductState>): Products
    reads set g | g in products :: products[g]
  {
    map g | g in products :: products[g].Value()
  }

  function LookupIn(products: Products, guid: int32): Option<Product> {
    if guid in products then Some(products[guid]) else None
  }

  function ContextOf(s: IslandSnapshot, guid: int32): Context {
    Context(s.key, s.name, guid, s.receivedAt)
  }

  /** The first n entries of a snapshot, one after the other. */
  function Entries(cfg: Config, products: Products, s: IslandSnapshot, n: nat): (Products, seq<Event>)
    requires n <= |s.products|
  {
    if n == 0 then (products, [])
    else
      var (before, events) := Entries(cfg, products, s, n - 1);
      var p := s.products[n - 1];
      var (next, more) := Step(cfg, if p.guid in before then before[p.guid] else NEW_PRODUCT,
                               ContextOf(s, p.guid), ReadingOf(p));
      (before[p.guid := next], events + more)
  }

  function ReadsOf(s: IslandSnapshot, n: nat, guid: int32): seq<Observation>
    requires n <= |s.products|
  {
    Reads(ByKey(s.products[..n], GuidOf, guid), s)
  }

  lemma ReadsOfNext(s: IslandSnapshot, n: nat, guid: int32)
    requires n < |s.products|
    ensures ReadsOf(s, n + 1, guid) ==
      ReadsOf(s, n, guid) +
      if s.products[n].guid == guid then [Read(s.name, s.receivedAt, ReadingOf(s.products[n]))] else []
  {
    assert s.products[..n + 1] == s.products[..n] + [s.products[n]];
    ByKeyAppend(s.products[..n], [s.products[n]], GuidOf, guid);
    assert ByKey([s.products[n]], GuidOf, guid) == if s.products[n].guid == guid then [s.products[n]] else [];
  }

  ghost predicate AllWellKeyed(products: Products, island: IslandKey) {
    forall g :: g in products ==> WellKeyed(products[g], island, g)
  }

  lemma StepKeyed(cfg: Config, ps: Product, c: Context, r: Reading)
    requires WellKeyed(ps, c.island, c.guid)
    ensures WellKeyed(Step(cfg, ps, c, r).0, c.island, c.guid)
    ensures forall e :: e in Step(cfg, ps, c, r).1 ==> e.alert.island == c.island && e.alert.guid == c.guid
  {
    hide Step;
    ObserveHeard(cfg, Some(ps), c.island, c.guid, Read(c.name, c.at, r), AlertKey(c.island, c.guid, Deficit));
  }

  lemma {:induction false} EntriesKeyed(cfg: Config, products: Products, s: IslandSnapshot, n: nat)
    requires n <= |s.products| && AllWellKeyed(products, s.key)
    ensures AllWellKeyed(Entries(cfg, products, s, n).0, s.key)
    ensures forall e :: e in Entries(cfg, products, s, n).1 ==> e.alert.island == s.key
  {
    hide Step;
    if n > 0 {
      EntriesKeyed(cfg, products, s, n - 1);
      var before := Entries(cfg, products, s, n - 1).0;
      var p := s.products[n - 1];
      StepKeyed(cfg, if p.guid in before then before[p.guid] else NEW_PRODUCT, ContextOf(s, p.guid), ReadingOf(p));
    }
  }

  /** Entry by entry, each product follows its own observations, in state and in events. */
  lemma {:induction false} EntriesFollow(cfg: Config, products: Products, s: IslandSnapshot, n: nat, key: AlertKey)
    requires n <= |s.products| && key.island == s.key && AllWellKeyed(products, s.key)
    ensures
      var (next, events) := Entries(cfg, products, s, n);
      var (ps, own) := Follow(cfg, LookupIn(products, key.guid), s.key, key.guid, ReadsOf(s, n, key.guid));
      && LookupIn(next, key.guid) == ps
      && ByKey(events, EventKey, key) == ByKey(own, EventKey, key)
  {
    hide Step, ReadsOf, ReadingOf, ByKey;
    if n == 0 {
      NoReads(s, key.guid);
    } else {
      var (before, events) := Entries(cfg, products, s, n - 1);
      var p := s.products[n - 1];
      var start := LookupIn(products, key.guid);
      var c, r := ContextOf(s, p.guid), ReadingOf(p);
      var ps := if p.guid in before then before[p.guid] else NEW_PRODUCT;
      var more := Step(cfg, ps, c, r).1;
      EntriesFollow(cfg, products, s, n - 1, key);
      EntriesKeyed(cfg, products, s, n - 1);
      StepKeyed(cfg, ps, c, r);
      ReadsOfNext(s, n - 1, key.guid);
      ByKeyAppend(events, more, EventKey, key);
      if p.guid == key.guid {
        var os := ReadsOf(s, n - 1, key.guid);
        FollowOneMore(cfg, start, s.key, key.guid, os, Read(s.name, s.receivedAt, r));
        ByKeyAppend(Follow(cfg, start, s.key, key.guid, os).1, more, EventKey, key);
      } else {
        ByKeyMembers(more, EventKey, key);
        assert ByKey(more, EventKey, key) == [];
        assert ReadsOf(s, n, key.guid) == ReadsOf(s, n - 1, key.guid);
      }
    }
  }

  lemma NoReads(s: IslandSnapshot, guid: int32)
    ensures ReadsOf(s, 0, guid) == []
  {
  }

  // --- products that a snapshot with goods no longer lists ---

  function Swept(products: Products, s: IslandSnapshot): Products {
    map g | g in products :: if g in Guids(s) then products[g] else EndDrop(products[g], s.receivedAt).0
  }

  function SweptEvents(products: Products, s: IslandSnapshot, key: AlertKey): seq<Event> {
    if key.guid in products && key.guid !in Guids(s) then
      ByKey(EndDrop(products[key.guid], s.receivedAt).1, EventKey, key)
    else []
  }

  /** The events of one key that a snapshot with these entries and, if it lists goods, this sweep produces. */
  function SnapshotEvents(cfg: Config, products: Products, s: IslandSnapshot, key: AlertKey): seq<Event> {
    var (listed, events) := Entries(cfg, products, s, |s.products|);
    ByKey(events, EventKey, key) + if s.products == [] then [] else SweptEvents(listed, s, key)
  }

  function SnapshotProducts(cfg: Config, products: Products, s: IslandSnapshot): Products {
    var listed := Entries(cfg, products, s, |s.products|).0;
    if s.products == [] then listed else Swept(listed, s)
  }

  lemma ListedFollowed(cfg: Config, products: Products, s: IslandSnapshot, key: AlertKey)
    requires key.island == s.key && AllWellKeyed(products, s.key) && key.guid in Guids(s)
    ensures Follow(cfg, LookupIn(products, key.guid), s.key, key.guid, Observations(s, s.key, key.guid)).0
         == LookupIn(SnapshotProducts(cfg, products, s), key.guid)
    ensures ByKey(Follow(cfg, LookupIn(products, key.guid), s.key, key.guid, Observations(s, s.key, key.guid)).1, EventKey, key)
         == SnapshotEvents(cfg, products, s, key)
  {
    hide Follow, Entries, EndDrop;
    assert s.products[..|s.products|] == s.products;
    EntriesFollow(cfg, products, s, |s.products|, key);
    ByKeyMembers(s.products, GuidOf, key.guid);
    var entries := ByKey(s.products, GuidOf, key.guid);
    assert Observations(s, s.key, key.guid) == ReadsOf(s, |s.products|, key.guid) by {
      assert entries != [];
    }
  }

  lemma NoEntries(s: IslandSnapshot, guid: int32)
    requires guid !in Guids(s)
    ensures ReadsOf(s, |s.products|, guid) == []
    ensures Observations(s, s.key, guid) == if s.products == [] then [] else [Gone(s.receivedAt)]
  {
    assert s.products[..|s.products|] == s.products;
    assert ByKey(s.products, GuidOf, guid) == [] by {
      ByKeyMembers(s.products, GuidOf, guid);
    }
  }

  lemma AbsentObserved(cfg: Config, start: Option<Product>, s: IslandSnapshot, guid: int32)
    requires guid !in Guids(s)
    ensures Follow(cfg, start, s.key, guid, []) == (start, [])
    ensures Follow(cfg, start, s.key, guid, Observations(s, s.key, guid)) ==
      if s.products == [] then (start, []) else Observe(cfg, start, s.key, guid, Gone(s.receivedAt))
  {
    hide Observe, Observations, Guids;
    NoEntries(s, guid);
    if s.products != [] {
      var more := Observe(cfg, start, s.key, guid, Gone(s.receivedAt)).1;
      FollowOneMore(cfg, start, s.key, guid, [], Gone(s.receivedAt));
      assert [] + [Gone(s.receivedAt)] == [Gone(s.receivedAt)];
      assert [] + more == more;
    }
  }

  lemma AbsentFollowed(cfg: Config, products: Products, s: IslandSnapshot, key: AlertKey)
    requires key.island == s.key && AllWellKeyed(products, s.key) && key.guid !in Guids(s)
    ensures Follow(cfg, LookupIn(products, key.guid), s.key, key.guid, Observations(s, s.key, key.guid)).0
         == LookupIn(SnapshotProducts(cfg, products, s), key.guid)
    ensures ByKey(Follow(cfg, LookupIn(products, key.guid), s.key, key.guid, Observations(s, s.key, key.guid)).1, EventKey, key)
         == SnapshotEvents(cfg, products, s, key)
  {
    hide Follow, Entries, ReadsOf, Observations, ByKey, EndDrop;
    NoEntries(s, key.guid);
    AbsentObserved(cfg, LookupIn(products, key.guid), s, key.guid);
    EntriesFollow(cfg, products, s, |s.products|, key);
    NoEvents(key);
  }

  lemma NoEvents(key: AlertKey)
    ensures ByKey([], EventKey, key) == []
  {
  }

  /** Entries and sweep together do to every product what the snapshot means for it. */
  lemma SnapshotFollowed(cfg: Config, products: Products, s: IslandSnapshot, key: AlertKey)
    requires key.island == s.key && AllWellKeyed(products, s.key)
    ensures
      var (ps, own) := Follow(cfg, LookupIn(products, key.guid), s.key, key.guid, Observations(s, s.key, key.guid));
      && LookupIn(SnapshotProducts(cfg, products, s), key.guid) == ps
      && SnapshotEvents(cfg, products, s, key) == ByKey(own, EventKey, key)
  {
    hide Follow, SnapshotProducts, SnapshotEvents;
    if key.guid in Guids(s) { ListedFollowed(cfg, products, s, key); } else { AbsentFollowed(cfg, products, s, key); }
  }

  function ValueOr(products: Products, guid: int32): Product {
    if guid in products then products[guid] else NEW_PRODUCT
  }

  /** The state of a product, created on first sight. */
  method ProductOf(known: map<int32, ProductState>, guid: int32) returns (products: map<int32, ProductState>)
    requires Distinct(known)
    ensures Distinct(products) && Objects(known) <= Objects(products) && fresh(Objects(products) - Objects(known))
    ensures guid in products && (products[guid] in Objects(known) || fresh(products[guid]))
    ensures Values(products) == Values(known)[guid := ValueOr(Values(known), guid)]
  {
    products := known;
    if guid !in products {
      var created := new ProductState();
      products := products[guid := created];
    }
    assert forall g :: g in known ==> products[g] == known[g];
  }

  method ApplyProduct(cfg: Config, ps: ProductState, c: Context, r: Reading) returns (events: seq<Event>)
    modifies ps
    ensures (ps.Value(), events) == Step(cfg, old(ps.Value()), c, r)
  {
    hide DeficitStep, DropStep;
    var deficits := ps.ApplyDeficit(cfg, c, r);
    var drops := ps.ApplyDrop(cfg, c, r);
    events := deficits + drops;
  }

  method ApplyKnown(cfg: Config, products: map<int32, ProductState>, c: Context, r: Reading) returns (events: seq<Event>)
    requires Distinct(products) && c.guid in products
    modifies products[c.guid]
    ensures
      var (next, more) := Step(cfg, old(Values(products))[c.guid], c, r);
      Values(products) == old(Values(products))[c.guid := next] && events == more
  {
    hide Step;
    events := ApplyProduct(cfg, products[c.guid], c, r);
  }

  method ApplyEntry(cfg: Config, known: map<int32, ProductState>, s: IslandSnapshot, p: ProductStat)
    returns (products: map<int32, ProductState>, events: seq<Event>)
    requires Distinct(known)
    modifies Objects(known)
    ensures Distinct(products) && Objects(known) <= Objects(products) && fresh(Objects(products) - Objects(known))
    ensures
      var before := old(Values(known));
      var (next, more) := Step(cfg, ValueOr(before, p.guid), ContextOf(s, p.guid), ReadingOf(p));
      Values(products) == before[p.guid := next] && events == more
  {
    hide Step, ReadingOf, Values, Distinct, Objects;
    products := ProductOf(known, p.guid);
    events := ApplyKnown(cfg, products, ContextOf(s, p.guid), ReadingOf(p));
  }

  method ApplyEntries(cfg: Config, known: map<int32, ProductState>, s: IslandSnapshot)
    returns (products: map<int32, ProductState>, events: seq<Event>)
    requires Distinct(known)
    modifies Objects(known)
    ensures Distinct(products) && Objects(known) <= Objects(products) && fresh(Objects(products) - Objects(known))
    ensures (Values(products), events) == Entries(cfg, old(Values(known)), s, |s.products|)
  {
    hide Step, Values;
    products, events := known, [];
    for i := 0 to |s.products|
      invariant Distinct(products) && Objects(known) <= Objects(products) && fresh(Objects(products) - Objects(known))
      invariant (Values(products), events) == Entries(cfg, old(Values(known)), s, i)
    {
      var more;
      products, more := ApplyEntry(cfg, products, s, s.products[i]);
      events := events + more;
    }
  }

  /** The state of a sweep that has still to visit todo. */
  ghost predicate SweepHolds(events: seq<Event>, before: Products, s: IslandSnapshot, todo: set<int32>) {
    && (forall e :: e in events ==> e.alert.island == s.key)
    && forall key: AlertKey :: key.island == s.key ==>
         ByKey(events, EventKey, key) == if key.guid in todo then [] else SweptEvents(before, s, key)
  }

  lemma SweepVisits(events: seq<Event>, before: Products, s: IslandSnapshot, todo: set<int32>, guid: int32)
    requires SweepHolds(events, before, s, todo) && guid in todo && guid in before && AllWellKeyed(before, s.key)
    ensures SweepHolds(events + if guid in Guids(s) then [] else EndDrop(before[guid], s.receivedAt).1,
                       before, s, todo - {guid})
  {
    var ended := if guid in Guids(s) then [] else EndDrop(before[guid], s.receivedAt).1;
    assert forall e :: e in ended ==> e.alert.island == s.key && e.alert.guid == guid;
    hide EndDrop;
    forall key: AlertKey | key.island == s.key
      ensures ByKey(events + ended, EventKey, key) == if key.guid in todo - {guid} then [] else SweptEvents(before, s, key)
    {
      ByKeyAppend(events, ended, EventKey, key);
      ByKeyMembers(ended, EventKey, key);
    }
  }

  lemma SweepStarts(before: Products, s: IslandSnapshot)
    ensures SweepHolds([], before, s, before.Keys)
  {
  }

  method Sweep(products: map<int32, ProductState>, s: IslandSnapshot) returns (events: seq<Event>)
    requires Distinct(products) && AllWellKeyed(Values(products), s.key)
    modifies Objects(products)
    ensures Values(products) == Swept(old(Values(products)), s)
    ensures SweepHolds(events, old(Values(products)), s, {})
  {
    hide SweepHolds, EndDrop;
    events := [];
    var present := Guids(s);
    var todo := products.Keys;
    ghost var before := Values(products);
    SweepStarts(before, s);
    assert before.Keys == products.Keys;
    while todo != {}
      invariant todo <= products.Keys
      invariant forall g :: g in products ==>
        products[g].Value() == if g in todo then before[g] else Swept(before, s)[g]
      invariant SweepHolds(events, before, s, todo)
      decreases todo
    {
      var guid :| guid in todo;
      SweepVisits(events, before, s, todo, guid);
      todo := todo - {guid};
      if guid !in present {
        var ended := products[guid].EndDrop(s.receivedAt);
        events := events + ended;
      } else {
        assert events + [] == events;
      }
    }
  }

  // --- the engine ---

  lemma KnownWellKeyed(cfg: Config, inputs: seq<Input>, island: IslandKey)
    ensures AllWellKeyed(KnownProducts(StateAfter(cfg, inputs), island), island)
  {
    forall g | g in KnownProducts(StateAfter(cfg, inputs), island)
      ensures WellKeyed(KnownProducts(StateAfter(cfg, inputs), island)[g], island, g)
    {
      ProductWellKeyed(cfg, inputs, island, g);
    }
  }

  lemma SameLookups(a: Products, b: Products)
    requires forall g: int32 :: LookupIn(a, g) == LookupIn(b, g)
    ensures a == b
  {
    assert forall g: int32 :: g in a <==> LookupIn(a, g).Some?;
    assert forall g: int32 :: g in b <==> LookupIn(b, g).Some?;
    assert a.Keys == b.Keys;
    assert forall g :: g in a ==> LookupIn(a, g) == Some(a[g]);
  }

  lemma NextIsSnapshot(cfg: Config, st: EngineState, s: IslandSnapshot)
    requires AllWellKeyed(KnownProducts(st, s.key), s.key)
    ensures NextProducts(cfg, st, s) == SnapshotProducts(cfg, KnownProducts(st, s.key), s)
  {
    hide Follow, SnapshotProducts, SnapshotEvents, NextProducts, Observations;
    forall g: int32
      ensures LookupIn(NextProducts(cfg, st, s), g) == LookupIn(SnapshotProducts(cfg, KnownProducts(st, s.key), s), g)
    {
      LookupAfter(cfg, st, s, s.key, g);
      SnapshotFollowed(cfg, KnownProducts(st, s.key), s, AlertKey(s.key, g, Deficit));
    }
    SameLookups(NextProducts(cfg, st, s), SnapshotProducts(cfg, KnownProducts(st, s.key), s));
  }

  /** Entries and sweep in any order, sorted stably, are what the engine must emit. */
  lemma SortedIsEmitted(cfg: Config, st: EngineState, s: IslandSnapshot, entries: seq<Event>, sweep: seq<Event>)
    requires AllWellKeyed(KnownProducts(st, s.key), s.key)
    requires entries == Entries(cfg, KnownProducts(st, s.key), s, |s.products|).1
    requires if s.products == [] then sweep == []
             else SweepHolds(sweep, Entries(cfg, KnownProducts(st, s.key), s, |s.products|).0, s, {})
    ensures Emits(cfg, st, Apply(s), StableSort(entries + sweep, EventKey, AlertLeq))
  {
    hide Follow, Entries, StableSort;
    AlertOrder();
    StableSortCorrect(entries + sweep, EventKey, AlertLeq);
    EntriesKeyed(cfg, KnownProducts(st, s.key), s, |s.products|);
    forall key: AlertKey
      ensures ByKey(entries + sweep, EventKey, key) == KeyEvents(cfg, st, Apply(s), key)
    {
      ByKeyAppend(entries, sweep, EventKey, key);
      if key.island == s.key {
        SnapshotFollowed(cfg, KnownProducts(st, s.key), s, key);
      } else {
        ByKeyMembers(entries, EventKey, key);
        ByKeyMembers(sweep, EventKey, key);
        OtherIsland(cfg, st, s, key);
      }
    }
  }

  lemma OtherIsland(cfg: Config, st: EngineState, s: IslandSnapshot, key: AlertKey)
    requires key.island != s.key
    ensures KeyEvents(cfg, st, Apply(s), key) == []
  {
  }

  lemma RunGrows(cfg: Config, inputs: seq<Input>, outputs: seq<seq<Event>>, input: Input, events: seq<Event>)
    requires IsRun(cfg, inputs, outputs) && Emits(cfg, StateAfter(cfg, inputs), input, events)
    ensures IsRun(cfg, inputs + [input], outputs + [events])
    ensures StateAfter(cfg, inputs + [input]) == After(cfg, StateAfter(cfg, inputs), input)
  {
    hide Emits, After;
    var more := inputs + [input];
    assert more[..|inputs|] == inputs;
    forall i | 0 <= i < |more| ensures Emits(cfg, StateAfter(cfg, more[..i]), more[i], (outputs + [events])[i]) {
      if i < |inputs| {
        assert more[..i] == inputs[..i];
      }
    }
  }

  /** A run continues with what entries and sweep of the next snapshot produced, sorted. */
  lemma ApplyContinues(cfg: Config, inputs: seq<Input>, outputs: seq<seq<Event>>, s: IslandSnapshot,
                       entries: seq<Event>, sweep: seq<Event>)
    requires IsRun(cfg, inputs, outputs)
    requires var known := KnownProducts(StateAfter(cfg, inputs), s.key);
      && entries == Entries(cfg, known, s, |s.products|).1
      && if s.products == [] then sweep == []
         else SweepHolds(sweep, Entries(cfg, known, s, |s.products|).0, s, {})
    ensures IsRun(cfg, inputs + [Input.Apply(s)], outputs + [StableSort(entries + sweep, EventKey, AlertLeq)])
    ensures var st := StateAfter(cfg, inputs);
      StateAfter(cfg, inputs + [Input.Apply(s)]) ==
        EngineState(st.islands[s.key := SnapshotProducts(cfg, KnownProducts(st, s.key), s)],
                    if s.receivedAt > st.newest then s.receivedAt else st.newest)
  {
    hide Entries, StableSort, IsRun, Emits, SweepHolds, SnapshotProducts, NextProducts, AllWellKeyed, StateAfter;
    var st := StateAfter(cfg, inputs);
    KnownWellKeyed(cfg, inputs, s.key);
    NextIsSnapshot(cfg, st, s);
    SortedIsEmitted(cfg, st, s, entries, sweep);
    RunGrows(cfg, inputs, outputs, Input.Apply(s), StableSort(entries + sweep, EventKey, AlertLeq));
  }

  lemma OwnAlerts(ps: Product, island: IslandKey, guid: int32, key: AlertKey)
    requires WellKeyed(ps, island, guid)
    ensures ByKey(OptionList(ps.deficit) + OptionList(ps.drop), KeyOf, key) ==
      if key.island == island && key.guid == guid then OptionList(OpenIn(ps, key.rule)) else []
  {
    ByKeyAppend(OptionList(ps.deficit), OptionList(ps.drop), KeyOf, key);
    OneAlert(ps.deficit, key);
    OneAlert(ps.drop, key);
  }

  lemma OneAlert(o: Option<Alert>, key: AlertKey)
    ensures ByKey(OptionList(o), KeyOf, key) == if o.Some? && KeyOf(o.value) == key then [o.value] else []
  {
  }

  lemma ClearedByKey(open: seq<Alert>, at: Time, key: AlertKey)
    ensures ByKey(ClearedEvents(open, at), EventKey, key) == ClearedEvents(ByKey(open, KeyOf, key), at)
    ensures Sorted(open, KeyOf, AlertLeq) ==> Sorted(ClearedEvents(open, at), EventKey, AlertLeq)
    decreases |open|
  {
    if open != [] {
      ClearedByKey(open[1..], at, key);
      assert ClearedEvents(open, at)[1..] == ClearedEvents(open[1..], at);
    }
  }

  function ClearedEvents(open: seq<Alert>, at: Time): seq<Event> {
    seq(|open|, i requires 0 <= i < |open| => Event(Cleared, open[i].(clearedAt := at)))
  }

  /** The open alerts found while visiting the products of one island, todo still to be visited. */
  ghost predicate CollectHolds(open: seq<Alert>, products: Products, island: IslandKey, todo: set<int32>) {
    forall key: AlertKey ::
      ByKey(open, KeyOf, key) ==
        if key.island == island && key.guid in products && key.guid !in todo then OptionList(OpenIn(products[key.guid], key.rule))
        else []
  }

  lemma CollectVisits(open: seq<Alert>, products: Products, island: IslandKey, todo: set<int32>, guid: int32)
    requires AllWellKeyed(products, island) && CollectHolds(open, products, island, todo)
    requires guid in todo && guid in products
    ensures CollectHolds(open + (OptionList(products[guid].deficit) + OptionList(products[guid].drop)),
                         products, island, todo - {guid})
  {
    var own := OptionList(products[guid].deficit) + OptionList(products[guid].drop);
    forall key: AlertKey
      ensures ByKey(open + own, KeyOf, key) ==
        if key.island == island && key.guid in products && key.guid !in todo - {guid}
        then OptionList(OpenIn(products[key.guid], key.rule)) else []
    {
      ByKeyAppend(open, own, KeyOf, key);
      OwnAlerts(products[guid], island, guid, key);
    }
  }

  lemma CollectStarts(products: Products, island: IslandKey)
    ensures CollectHolds([], products, island, products.Keys)
  {
  }

  /** The products of one island. */
  class IslandState {
    var products: map<int32, ProductState>
    ghost var Repr: set<object>

    ghost predicate Valid()
      reads this
    {
      this !in Repr && Distinct(products) && Objects(products) <= Repr
    }

    function Value(): Products
      requires Valid()
      reads this, Repr
    {
      Values(products)
    }

    constructor ()
      ensures Valid() && Value() == map[] && fresh(Repr)
    {
      products, Repr := map[], {};
    }

    /** Runs the rules for one snapshot; the events come out in no particular order. */
    method Evaluate(cfg: Config, snap: IslandSnapshot) returns (entries: seq<Event>, sweep: seq<Event>)
      requires Valid() && AllWellKeyed(Value(), snap.key)
      modifies this, Repr
      ensures Valid() && fresh(Repr - old(Repr))
      ensures Value() == SnapshotProducts(cfg, old(Value()), snap)
      ensures entries == Entries(cfg, old(Value()), snap, |snap.products|).1
      ensures if snap.products == [] then sweep == []
              else SweepHolds(sweep, Entries(cfg, old(Value()), snap, |snap.products|).0, snap, {})
    {
      hide Entries, SweepHolds, Swept, AllWellKeyed, Values;
      ghost var before := Value();
      products, entries := ApplyEntries(cfg, products, snap);
      Repr := Repr + Objects(products);
      EntriesKeyed(cfg, before, snap, |snap.products|);
      sweep := [];
      if snap.products != [] {
        sweep := Sweep(products, snap);
      }
    }
  }

  method CollectIsland(island: IslandState, key: IslandKey) returns (open: seq<Alert>)
    requires island.Valid() && AllWellKeyed(island.Value(), key)
    ensures CollectHolds(open, island.Value(), key, {})
  {
    hide CollectHolds, AllWellKeyed;
    open := [];
    var todo := island.products.Keys;
    CollectStarts(island.Value(), key);
    assert island.Value().Keys == todo;
    while todo != {}
      invariant todo <= island.products.Keys
      invariant CollectHolds(open, island.Value(), key, todo)
      decreases todo
    {
      var guid :| guid in todo;
      CollectVisits(open, island.Value(), key, todo, guid);
      todo := todo - {guid};
      var ps := island.products[guid];
      assert open + (OptionList(ps.deficit) + OptionList(ps.drop)) == open + OptionList(ps.deficit) + OptionList(ps.drop);
      open := open + OptionList(ps.deficit) + OptionList(ps.drop);
    }
  }

  /** The same over the islands. */
  ghost predicate GatherHolds(open: seq<Alert>, islands: map<IslandKey, Products>, todo: set<IslandKey>) {
    forall key: AlertKey ::
      ByKey(open, KeyOf, key) ==
        if key.island in todo then []
        else if Lookup(islands, key.island, key.guid).Some? then
          OptionList(OpenIn(Lookup(islands, key.island, key.guid).value, key.rule))
        else []
  }

  lemma GatherVisits(open: seq<Alert>, more: seq<Alert>, islands: map<IslandKey, Products>, todo: set<IslandKey>, island: IslandKey)
    requires GatherHolds(open, islands, todo) && island in todo && island in islands
    requires CollectHolds(more, islands[island], island, {})
    ensures GatherHolds(open + more, islands, todo - {island})
  {
    hide OpenIn, ByKey;
    forall key: AlertKey
      ensures ByKey(open + more, KeyOf, key) ==
        if key.island in todo - {island} then []
        else if Lookup(islands, key.island, key.guid).Some? then
          OptionList(OpenIn(Lookup(islands, key.island, key.guid).value, key.rule))
        else []
    {
      ByKeyAppend(open, more, KeyOf, key);
    }
  }

  lemma GatherStarts(islands: map<IslandKey, Products>)
    ensures GatherHolds([], islands, islands.Keys)
  {
  }

  lemma GatheredIsOpen(st: EngineState, open: seq<Alert>)
    requires GatherHolds(open, st.islands, {})
    ensures forall key: AlertKey :: ByKey(open, KeyOf, key) == OpenList(st, key)
    ensures ListsActive(st, StableSort(open, KeyOf, AlertLeq))
  {
    AlertOrder();
    hide StableSort;
    StableSortCorrect(open, KeyOf, AlertLeq);
  }

  lemma ResetEmits(cfg: Config, st: EngineState, now: Time, active: seq<Alert>)
    requires ListsActive(st, active)
    ensures Emits(cfg, st, Input.Reset(now), ClearedEvents(active, ResetTime(st, now)))
  {
    forall key: AlertKey
      ensures ByKey(ClearedEvents(active, ResetTime(st, now)), EventKey, key) == KeyEvents(cfg, st, Input.Reset(now), key)
    {
      ClearedByKey(active, ResetTime(st, now), key);
    }
    ClearedByKey(active, ResetTime(st, now), AlertKey(IslandKey(0, 0), 0, Deficit));
  }

  /** Every island has its own state within repr; no object belongs to two of them. */
  ghost predicate Separate(islands: map<IslandKey, IslandState>, repr: set<object>)
    reads repr
  {
    && (forall k :: k in islands ==>
          islands[k] in repr && islands[k].Repr <= repr && islands[k] !in islands[k].Repr && islands[k].Valid())
    && (forall k, l :: k in islands && l in islands && k != l ==>
          islands[k] != islands[l] && islands[k] !in islands[l].Repr && islands[k].Repr !! islands[l].Repr)
  }

  ghost function IslandValues(islands: map<IslandKey, IslandState>, repr: set<object>): map<IslandKey, Products>
    requires Separate(islands, repr)
    reads repr
  {
    map k | k in islands :: islands[k].Value()
  }

  /** Runs the rules on one island and leaves every other one alone. */
  method EvaluateIsland(cfg: Config, islands: map<IslandKey, IslandState>, snap: IslandSnapshot, ghost repr: set<object>)
    returns (entries: seq<Event>, sweep: seq<Event>, ghost grown: set<object>)
    requires Separate(islands, repr)
    requires snap.key in islands && AllWellKeyed(IslandValues(islands, repr)[snap.key], snap.key)
    modifies repr
    ensures fresh(grown - repr) && Separate(islands, grown)
    ensures IslandValues(islands, grown) == old(IslandValues(islands, repr))[snap.key :=
      SnapshotProducts(cfg, old(IslandValues(islands, repr)[snap.key]), snap)]
    ensures entries == Entries(cfg, old(IslandValues(islands, repr)[snap.key]), snap, |snap.products|).1
    ensures if snap.products == [] then sweep == []
            else SweepHolds(sweep, Entries(cfg, old(IslandValues(islands, repr)[snap.key]), snap, |snap.products|).0, snap, {})
  {
    hide Entries, SweepHolds, SnapshotProducts, AllWellKeyed, IslandState.Valid, IslandState.Value;
    var island := islands[snap.key];
    ghost var before := IslandValues(islands, repr);
    entries, sweep := island.Evaluate(cfg, snap);
    grown := repr + island.Repr;
    forall k | k in islands && k != snap.key
      ensures islands[k].Repr == old(islands[k].Repr) && islands[k].Valid() && islands[k].Value() == before[k]
    {
    }
    assert Separate(islands, grown);
    ghost var after := IslandValues(islands, grown);
    assert forall k :: k in islands ==> after[k] == if k == snap.key then island.Value() else before[k];
    hide Separate;
    assert after == before[snap.key := island.Value()];
  }

  lemma IslandAdded(islands: map<IslandKey, IslandState>, repr: set<object>, key: IslandKey, island: IslandState)
    requires Separate(islands, repr) && key !in islands
    requires island !in repr && island.Repr !! repr && island !in island.Repr && island.Valid()
    ensures Separate(islands[key := island], repr + {island} + island.Repr)
    ensures IslandValues(islands[key := island], repr + {island} + island.Repr)
         == IslandValues(islands, repr)[key := island.Value()]
  {
    hide IslandState.Valid, IslandState.Value;
  }

  class Engine {
    const cfg: Config
    var islands: map<IslandKey, IslandState>
    var newest: Time

    // The history the engine's state and events are a function of.
    ghost var inputs: seq<Input>
    ghost var outputs: seq<seq<Event>>
    ghost var Repr: set<object>

    ghost predicate Owned()
      reads this, Repr
    {
      this !in Repr && Separate(islands, Repr)
    }

    ghost function State(): EngineState
      requires Owned()
      reads this, Repr
    {
      EngineState(IslandValues(islands, Repr), newest)
    }

    ghost predicate Valid()
      reads this, Repr
    {
      Owned() && Countable(cfg) && State() == StateAfter(cfg, inputs) && IsRun(cfg, inputs, outputs)
    }

    constructor (c: Config)
      ensures Valid() && cfg == WithDefaults(c) && inputs == [] && fresh(Repr)
    {
      cfg := WithDefaults(c);
      islands, newest := map[], ZeroTime;
      inputs, outputs, Repr := [], [], {};
    }

    /** The state of an island, created on first sight. */
    method Island(key: IslandKey) returns (island: IslandState)
      requires Owned()
      modifies this
      ensures Owned() && fresh(Repr - old(Repr))
      ensures inputs == old(inputs) && outputs == old(outputs)
      ensures key in islands && islands[key] == island && island.Value() == KnownProducts(old(State()), key)
      ensures State() == old(State()).(islands := old(State()).islands[key := island.Value()])
    {
      hide IslandState.Valid, IslandState.Value;
      assert key in islands ==> islands[key].Value() == State().islands[key];
      assert key in islands ==> State().islands[key := islands[key].Value()] == State().islands;
      hide Separate, IslandValues;
      if key !in islands {
        island := new IslandState();
        IslandAdded(islands, Repr, key, island);
        islands := islands[key := island];
        Repr := Repr + {island} + island.Repr;
      }
      island := islands[key];
    }

    method Apply(snap: IslandSnapshot) returns (events: seq<Event>)
      requires Valid()
      modifies this, Repr
      ensures Valid() && fresh(Repr - old(Repr))
      ensures inputs == old(inputs) + [Input.Apply(snap)] && outputs == old(outputs) + [events]
    {
      hide Entries, StableSort, IsRun, SweepHolds, SnapshotProducts, AllWellKeyed, StateAfter, Separate, IslandValues,
        IslandState.Valid, IslandState.Value;
      ghost var st := State();
      KnownWellKeyed(cfg, inputs, snap.key);
      ghost var known := KnownProducts(st, snap.key);
      var island := Island(snap.key);
      ghost var next := SnapshotProducts(cfg, known, snap);
      assert st.islands[snap.key := known][snap.key := next] == st.islands[snap.key := next];
      hide KnownProducts;
      var entries, sweep;
      entries, sweep, Repr := EvaluateIsland(cfg, islands, snap, Repr);
      if snap.receivedAt > newest {
        newest := snap.receivedAt;
      }
      events := StableSort(entries + sweep, EventKey, AlertLeq);
      ApplyContinues(cfg, inputs, outputs, snap, entries, sweep);
      inputs, outputs := inputs + [Input.Apply(snap)], outputs + [events];
    }

    /** Collects the open alerts of every product of every island, in whatever order the maps are walked. */
    method Gather() returns (open: seq<Alert>)
      requires Valid()
      ensures GatherHolds(open, State().islands, {})
    {
      hide GatherHolds, CollectHolds, AllWellKeyed, IsRun, IslandState.Valid, IslandState.Value;
      open := [];
      var todo := islands.Keys;
      ghost var values := State().islands;
      GatherStarts(values);
      assert values.Keys == todo;
      while todo != {}
        invariant todo <= islands.Keys
        invariant GatherHolds(open, values, todo)
        decreases todo
      {
        var key :| key in todo;
        KnownWellKeyed(cfg, inputs, key);
        var more := CollectIsland(islands[key], key);
        GatherVisits(open, more, values, todo, key);
        open := open + more;
        todo := todo - {key};
      }
    }

    method Active() returns (active: seq<Alert>)
      requires Valid()
      ensures ListsActive(StateAfter(cfg, inputs), active)
    {
      hide GatherHolds, ListsActive, IsRun, StableSort, Separate, IslandValues;
      var open := Gather();
      active := StableSort(open, KeyOf, AlertLeq);
      GatheredIsOpen(State(), open);
    }

    method Reset(now: Time) returns (events: seq<Event>)
      requires Valid()
      modifies this
      ensures Valid() && fresh(Repr - old(Repr))
      ensures inputs == old(inputs) + [Input.Reset(now)] && outputs == old(outputs) + [events]
    {
      hide ListsActive, IsRun, Emits, StateAfter, ClearedEvents, GatherHolds;
      ghost var st := State();
      var at := newest;
      if at == ZeroTime {
        at := now;
      }
      var open := Active();
      events := ClearedEvents(open, at);
      ResetEmits(cfg, st, now, open);
      RunGrows(cfg, inputs, outputs, Input.Reset(now), events);
      islands, newest := map[], ZeroTime;
      inputs, outputs := inputs + [Input.Reset(now)], outputs + [events];
      assert State() == NEW_ENGINE;
    }
  }
}
