/** What alerts show and what the drop rule measures, in numbers: productivity up to a hundred percent, the latest judged
    reading, the mean, the stamps of a reset, the order of a list and the defaults. */
module AlertValues {
  import opened Model
  import opened Sorting
  import opened AlertRules
  import opened AlertRuns
  import opened AlertEvents
  import opened DeficitLatch
  import opened DropWindow
  import opened DropRuns

  // --- at most a hundred percent ---

  /** This is a productivity that was read, or a hundred where that was more. */
  ghost predicate WasRead(value: real, os: seq<Observation>) {
    exists o :: o in os && o.Read? && o.reading.productivity.Finite? && value == AtMostHundred(o.reading.productivity.value)
  }

  ghost predicate AllRead(samples: seq<Sample>, os: seq<Observation>) {
    forall s :: s in samples ==> WasRead(s.value, os)
  }

  lemma ReadMore(samples: seq<Sample>, os: seq<Observation>, o: Observation)
    requires AllRead(samples, os)
    ensures AllRead(samples, os + [o])
  {
    assert forall x :: x in os ==> x in os + [o];
  }

  lemma CountedIsRead(cfg: Config, g: Gauge, os: seq<Observation>, o: Observation)
    requires o.Read? && CountedReading(cfg, g, o.at, o.reading).Some?
    ensures WasRead(CountedReading(cfg, g, o.at, o.reading).value.value, os + [o])
  {
    hide Base, Mean;
    assert o in os + [o];
  }

  /** Every counted reading is a productivity that was read, capped at a hundred. */
  lemma {:induction false} CountedAreRead(cfg: Config, os: seq<Observation>)
    ensures AllRead(GaugeOf(cfg, os).counted, os)
  {
    if os != [] {
      hide CountedReading, WasRead;
      var init, o := os[..|os| - 1], os[|os| - 1];
      assert os == init + [o];
      CountedAreRead(cfg, init);
      ReadMore(GaugeOf(cfg, init).counted, init, o);
      if o.Read? && CountedReading(cfg, GaugeOf(cfg, init), o.at, o.reading).Some? {
        CountedIsRead(cfg, GaugeOf(cfg, init), init, o);
      }
    }
  }

  lemma {:induction false} RecentMembers(samples: seq<Sample>, cutoff: int)
    ensures forall s :: s in Recent(samples, cutoff) ==> s in samples && s.at >= cutoff
  {
    if samples != [] {
      RecentMembers(samples[..|samples| - 1], cutoff);
    }
  }

  /** For every run and product: every stored sample is at most a hundred, and is a productivity read since the last reset,
      or a hundred where that was more. */
  lemma SamplesAreCapped(cfg: Config, inputs: seq<Input>, island: IslandKey, guid: int32)
    requires Countable(cfg)
    ensures var samples := ProductOr(Lookup(StateAfter(cfg, inputs).islands, island, guid)).samples;
      AllRead(samples, History(inputs, island, guid)) && (forall s :: s in samples ==> s.value <= 100.0) && |samples| <= 512
  {
    hide StateAfter, GaugeOf, History, Recent;
    var os := History(inputs, island, guid);
    var g := GaugeOf(cfg, os);
    SamplesAreWindow(cfg, inputs, island, guid);
    CountedAreRead(cfg, os);
    RecentMembers(g.counted, g.clock - cfg.dropWindow);
  }

  lemma WindowIsCapped(cfg: Config, os: seq<Observation>, at: Time, r: Reading)
    ensures forall s :: s in WindowAt(cfg, GaugeOf(cfg, os), at, r) ==> s.value <= 100.0
  {
    hide GaugeOf, CountedReading, Recent;
    var g := GaugeOf(cfg, os);
    CountedAreRead(cfg, os);
    var cutoff := match CountedReading(cfg, g, at, r) case Some(s) => s.at - cfg.dropWindow case None => g.clock - cfg.dropWindow;
    RecentMembers(g.counted, cutoff);
  }

  lemma {:induction false} SumAtMost(samples: seq<Sample>, ceiling: real)
    requires forall s :: s in samples ==> s.value <= ceiling
    ensures Sum(samples) <= |samples| as real * ceiling
  {
    if samples != [] {
      assert samples[|samples| - 1] in samples;
      SumAtMost(samples[..|samples| - 1], ceiling);
    }
  }

  lemma MeanAtMost(samples: seq<Sample>, ceiling: real)
    requires samples != [] && forall s :: s in samples ==> s.value <= ceiling
    ensures Mean(samples) <= ceiling
  {
    SumAtMost(samples, ceiling);
    QuotientAtMost(Sum(samples), |samples| as real, ceiling);
  }

  lemma Product(total: real, n: real)
    requires n > 0.0
    ensures total / n * n == total
  {
  }

  lemma QuotientAtMost(total: real, n: real, ceiling: real)
    requires n > 0.0 && total <= n * ceiling
    ensures total / n <= ceiling
  {
    var x := total / n;
    Product(total, n);
    Ordered(x, ceiling, n);
  }

  lemma Ordered(x: real, y: real, n: real)
    requires n > 0.0
    ensures x * n <= n * y <==> x <= y
  {
    assert (x - y) * n == x * n - n * y;
    SignOf(x - y, n);
  }

  lemma SignOf(x: real, n: real)
    requires n > 0.0
    ensures x * n <= 0.0 <==> x <= 0.0
  {
  }

  /** A reading of a hundred or more is never due for a drop. */
  lemma DueIsBelowHundred(cfg: Config, os: seq<Observation>, o: Observation)
    requires Usable(cfg) && Due(cfg, os, o)
    ensures o.Read? && o.reading.productivity.Finite? && o.reading.productivity.value < 100.0
  {
    hide GaugeOf, Window, Mean, NegativeTail, Readings;
    WindowIsCapped(cfg, os, o.at, o.reading);
    MeanAtMost(WindowAt(cfg, GaugeOf(cfg, os), o.at, o.reading), 100.0);
  }

  /** In every run with a usable configuration, an input raises a drop only if it is a snapshot that lists the product
      with a productivity below a hundred percent. */
  lemma RaisedBelowHundred(cfg: Config, inputs: seq<Input>, outputs: seq<seq<Event>>, i: nat, island: IslandKey, guid: int32)
    returns (p: ProductStat)
    requires Usable(cfg) && IsRun(cfg, inputs, outputs) && i < |inputs| && RaisesDropOf(outputs[i], island, guid)
    ensures inputs[i].Apply? && p in inputs[i].snap.products && p.guid == guid
    ensures FloatOf(p.avgProductivity).Finite? && FloatOf(p.avgProductivity).value < 100.0
  {
    hide IsRun, RaisesDropOf, Due, DropOpen, History, FloatOf;
    DropRaisedInRunIff(cfg, inputs, outputs, i, island, guid);
    var s := inputs[i].snap;
    var before, os := History(inputs[..i], island, guid), Observations(s, island, guid);
    var j :| 0 <= j < |os| && RaisesAt(cfg, before, os, j);
    DueIsBelowHundred(cfg, before + os[..j], os[j]);
    p := EntryRead(s, island, guid, j);
  }

  lemma EntryRead(s: IslandSnapshot, island: IslandKey, guid: int32, j: nat) returns (p: ProductStat)
    requires j < |Observations(s, island, guid)| && Observations(s, island, guid)[j].Read?
    ensures p in s.products && p.guid == guid && Observations(s, island, guid)[j].reading.productivity == FloatOf(p.avgProductivity)
  {
    hide FloatOf;
    var entries := ByKey(s.products, GuidOf, guid);
    ByKeyMembers(s.products, GuidOf, guid);
    p := entries[j];
    assert p in entries;
  }

  // --- what an open drop shows ---

  /** An observation at which the drop rule judges: buildings, a productivity that is a number, and enough readings. */
  ghost predicate JudgedAt(cfg: Config, os: seq<Observation>, i: nat)
    requires i < |os|
  {
    && os[i].Read? && os[i].reading.buildings != 0 && os[i].reading.productivity.Finite?
    && |WindowAt(cfg, GaugeOf(cfg, os[..i]), os[i].at, os[i].reading)| >= cfg.minSamplesForDrop
  }

  /** A drop left open by an entry shows that entry, or, when the rule does not judge it, what it showed before. */
  lemma StepShows(cfg: Config, ps: Product, c: Context, r: Reading)
    requires DropStep(cfg, ps, c, r).0.drop.Some?
    ensures r.buildings != 0
    ensures var a := DropStep(cfg, ps, c, r).0.drop.value;
      if r.productivity.Finite?
         && |Baseline(cfg, ps, c, r.delta, Capped(r.productivity.value)).samples| >= cfg.minSamplesForDrop then
        a.value == Finite(AtMostHundred(r.productivity.value)) && a.islandName == c.name
      else ps.drop == Some(a)
  {
    hide Mean, Prune, AppendSample, Elapsed, Idle;
  }

  lemma ObservedShows(cfg: Config, island: IslandKey, guid: int32, os: seq<Observation>, o: Observation)
    requires Countable(cfg)
    requires OpenOf(Observe(cfg, Follow(cfg, None, island, guid, os).0, island, guid, o).0, ProductivityDrop).Some?
    ensures var before := Follow(cfg, None, island, guid, os).0;
      var a := OpenOf(Observe(cfg, before, island, guid, o).0, ProductivityDrop).value;
      if JudgedAt(cfg, os + [o], |os|) then
        a.value == Finite(AtMostHundred(o.reading.productivity.value)) && a.islandName == o.name
      else OpenOf(before, ProductivityDrop) == Some(a)
  {
    hide DeficitStep, DropStep, Baseline, WindowAt, GaugeOf, Follow, Holds;
    var before := Follow(cfg, None, island, guid, os).0;
    assert (os + [o])[..|os|] == os;
    if o.Gone? {
      GoneEndsDrop(cfg, before, island, guid, o);
    } else {
      var c, ps := Context(island, o.name, guid, o.at), ProductOr(before);
      var counted := DeficitStep(cfg, ps, c, o.reading).0;
      StepShows(cfg, counted, c, o.reading);
      DeficitStepLeaves(cfg, ps, c, o.reading);
      if o.reading.productivity.Finite? {
        ProductHolds(cfg, island, guid, os);
        BaselineIsWindow(cfg, ps, GaugeOf(cfg, os), c, o.reading);
        SameBaseline(cfg, ps, counted, c, o.reading.delta, Capped(o.reading.productivity.value));
      }
    }
  }

  /** The last observation judged is this one. */
  ghost predicate LastJudged(cfg: Config, os: seq<Observation>, i: nat) {
    i < |os| && JudgedAt(cfg, os, i) && forall j :: i < j < |os| ==> !JudgedAt(cfg, os, j)
  }

  lemma JudgedEarlier(cfg: Config, os: seq<Observation>, o: Observation, i: nat)
    requires i < |os|
    ensures JudgedAt(cfg, os + [o], i) <==> JudgedAt(cfg, os, i)
  {
    hide GaugeOf, WindowAt;
    assert (os + [o])[..i] == os[..i] && (os + [o])[i] == os[i];
  }

  lemma LastJudgedGrows(cfg: Config, os: seq<Observation>, o: Observation, i: nat)
    ensures LastJudged(cfg, os, i) && !JudgedAt(cfg, os + [o], |os|) ==> LastJudged(cfg, os + [o], i)
    ensures JudgedAt(cfg, os + [o], |os|) ==> LastJudged(cfg, os + [o], |os|)
  {
    hide JudgedAt;
    forall j | 0 <= j < |os| ensures JudgedAt(cfg, os + [o], j) <==> JudgedAt(cfg, os, j) {
      JudgedEarlier(cfg, os, o, j);
    }
  }

  lemma {:induction false} HistoryShows(cfg: Config, island: IslandKey, guid: int32, os: seq<Observation>) returns (i: nat)
    requires Countable(cfg) && OpenOf(Follow(cfg, None, island, guid, os).0, ProductivityDrop).Some?
    ensures var a := OpenOf(Follow(cfg, None, island, guid, os).0, ProductivityDrop).value;
      && LastJudged(cfg, os, i)
      && a.value == Finite(AtMostHundred(os[i].reading.productivity.value)) && a.islandName == os[i].name
  {
    hide Observe, GaugeOf, WindowAt;
    var init, o := os[..|os| - 1], os[|os| - 1];
    assert os == init + [o];
    ObservedShows(cfg, island, guid, init, o);
    if JudgedAt(cfg, os, |init|) {
      i := |init|;
      LastJudgedGrows(cfg, init, o, i);
    } else {
      i := HistoryShows(cfg, island, guid, init);
      LastJudgedGrows(cfg, init, o, i);
    }
  }

  /** An open drop always shows the productivity, capped at a hundred, and the island name of the last reading that was
      judged: one with buildings and a number, with enough readings in the window. */
  lemma OpenDropIsCurrent(cfg: Config, inputs: seq<Input>, island: IslandKey, guid: int32) returns (i: nat)
    requires Countable(cfg) && OpenAlert(StateAfter(cfg, inputs), AlertKey(island, guid, ProductivityDrop)).Some?
    ensures
      var a, os := OpenAlert(StateAfter(cfg, inputs), AlertKey(island, guid, ProductivityDrop)).value, History(inputs, island, guid);
      && LastJudged(cfg, os, i)
      && a.value == Finite(AtMostHundred(os[i].reading.productivity.value)) && a.islandName == os[i].name
  {
    hide Follow, History, LastJudged;
    StateIsHistory(cfg, inputs, island, guid);
    i := HistoryShows(cfg, island, guid, History(inputs, island, guid));
  }

  // --- the mean ---

  lemma {:induction false} SumJoin(a: seq<Sample>, b: seq<Sample>)
    ensures Sum(a + b) == Sum(a) + Sum(b)
  {
    if b == [] {
      assert a + b == a;
    } else {
      assert (a + b)[..|a + b| - 1] == a + b[..|b| - 1];
      SumJoin(a, b[..|b| - 1]);
    }
  }

  /** The mean of one reading is that reading, of none is zero, and joined parts count by their number. */
  lemma MeanIs(a: seq<Sample>, b: seq<Sample>, s: Sample)
    ensures Mean([]) == 0.0 && Mean([s]) == s.value
    ensures Mean(a + b) * |a + b| as real == Mean(a) * |a| as real + Mean(b) * |b| as real
  {
    SumJoin(a, b);
    assert [s][..0] == [];
    if a != [] { Product(Sum(a), |a| as real); }
    if b != [] { Product(Sum(b), |b| as real); }
    if a + b != [] { Product(Sum(a + b), |a + b| as real); }
    hide Mean, Sum;
    assert a == [] ==> a + b == b;
    assert b == [] ==> a + b == a;
  }

  // --- resets ---

  /** A snapshot since the last reset. */
  predicate SinceReset(inputs: seq<Input>, j: int) {
    0 <= j < |inputs| && forall k :: j <= k < |inputs| ==> inputs[k].Apply?
  }

  /** The latest receive time since the last reset, if one is after the unset time. */
  ghost predicate Latest(inputs: seq<Input>, t: Time) {
    && t >= ZeroTime
    && (forall j :: SinceReset(inputs, j) ==> inputs[j].snap.receivedAt <= t)
    && (t > ZeroTime ==> exists j :: SinceReset(inputs, j) && inputs[j].snap.receivedAt == t)
  }

  lemma LatestGrows(inputs: seq<Input>, input: Input, t: Time)
    requires Latest(inputs, t)
    ensures input.Apply? ==> Latest(inputs + [input], if input.snap.receivedAt > t then input.snap.receivedAt else t)
    ensures input.Reset? ==> Latest(inputs + [input], ZeroTime)
  {
    var more := inputs + [input];
    assert forall j :: 0 <= j < |inputs| ==> more[j] == inputs[j];
    assert more[|inputs|] == input;
    if input.Apply? {
      assert forall j :: 0 <= j < |inputs| ==> (SinceReset(more, j) <==> SinceReset(inputs, j));
      assert SinceReset(more, |inputs|);
      if t > ZeroTime && input.snap.receivedAt <= t {
        var j :| SinceReset(inputs, j) && inputs[j].snap.receivedAt == t;
        assert SinceReset(more, j) && more[j] == inputs[j];
      }
    } else {
      assert forall j :: !SinceReset(more, j);
    }
  }

  lemma {:induction false} NewestIsLatest(cfg: Config, inputs: seq<Input>)
    ensures Latest(inputs, StateAfter(cfg, inputs).newest)
  {
    hide Latest, NextProducts;
    if inputs == [] {
      NoneLatest();
    } else {
      var init, input := inputs[..|inputs| - 1], inputs[|inputs| - 1];
      assert inputs == init + [input];
      NewestIsLatest(cfg, init);
      LatestGrows(init, input, StateAfter(cfg, init).newest);
    }
  }

  lemma NoneLatest()
    ensures Latest([], ZeroTime)
  {
  }

  /** In every run, a reset clears what is open and nothing else changes of it: the events carry the latest receive time
      since the reset before, or the wall clock when there was none. */
  lemma ResetEventsAre(cfg: Config, inputs: seq<Input>, outputs: seq<seq<Event>>, i: nat, e: Event) returns (latest: Time)
    requires IsRun(cfg, inputs, outputs) && i < |inputs| && inputs[i].Reset? && e in outputs[i]
    ensures Latest(inputs[..i], latest) && e.kind == Cleared
    ensures e.alert.clearedAt == if latest > ZeroTime then latest else inputs[i].now
    ensures var open := OpenAlert(StateAfter(cfg, inputs[..i]), EventKey(e));
      open.Some? && e.alert == open.value.(clearedAt := e.alert.clearedAt)
    ensures e.alert.severity == if e.alert.rule == NoLocalProduction then Info else Warning
  {
    hide StateAfter, Latest;
    var st := StateAfter(cfg, inputs[..i]);
    NewestIsLatest(cfg, inputs[..i]);
    latest := st.newest;
    ByKeyMembers(outputs[i], EventKey, EventKey(e));
    assert e in KeyEvents(cfg, st, inputs[i], EventKey(e));
    ProductWellKeyed(cfg, inputs[..i], e.alert.island, e.alert.guid);
    LatestIsSet(inputs[..i], latest);
  }

  lemma LatestIsSet(inputs: seq<Input>, t: Time)
    requires Latest(inputs, t)
    ensures t >= ZeroTime
  {
  }

  // --- orders and defaults ---

  /** Alerts are listed by session, island, product and rule, the rules in the order of their names: deficit,
      no_local_production, productivity_drop. */
  lemma OrderIs(a: AlertKey, b: AlertKey)
    ensures AlertLeq(a, b) <==>
      || a.island.session < b.island.session
      || (a.island.session == b.island.session
          && (a.island.island < b.island.island
              || (a.island.island == b.island.island
                  && (a.guid < b.guid || (a.guid == b.guid && (a.rule == b.rule || a.rule == Deficit || b.rule == ProductivityDrop))))))
  {
  }

  /** What is filled in: three samples to raise and to clear a deficit, a drop of twenty points that clears at ten, or at
      half of what raises, two negative samples, fifteen minutes, and three readings. */
  lemma DefaultsAre(c: Config)
    ensures var d := WithDefaults(c);
      && d.deficitSamples == (if c.deficitSamples >= 1 then c.deficitSamples else 3)
      && d.deficitClearSamples == (if c.deficitClearSamples >= 1 then c.deficitClearSamples else 3)
      && d.dropNegativeSamples == (if c.dropNegativeSamples >= 1 then c.dropNegativeSamples else 2)
      && d.minSamplesForDrop == (if c.minSamplesForDrop >= 1 then c.minSamplesForDrop else 3)
      && d.dropWindow == (if c.dropWindow > 0 then c.dropWindow else 900_000_000_000)
    ensures c.dropPercentagePoints.Finite? && c.dropClearPercentagePoints.Finite? ==>
      var raise := if c.dropPercentagePoints.value > 0.0 then c.dropPercentagePoints.value else 20.0;
      var clear := if c.dropClearPercentagePoints.value > 0.0 then c.dropClearPercentagePoints.value else 10.0;
      && WithDefaults(c).dropPercentagePoints == Finite(raise)
      && WithDefaults(c).dropClearPercentagePoints == Finite(if clear >= raise then raise / 2.0 else clear)
  {
  }
}
