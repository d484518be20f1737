/** The sliding window of the drop rule, and what an open or newly raised drop says about the history. */
module DropWindow {
  import opened Model
  import opened Sorting
  import opened AlertRules
  import opened AlertRuns
  import opened DeficitLatch

  function ProductOr(ps: Option<Product>): Product {
    if ps.Some? then ps.value else NEW_PRODUCT
  }

  /** The readings stamped at or after the cutoff. */
  function Recent(samples: seq<Sample>, cutoff: int): seq<Sample> {
    if samples == [] then []
    else Recent(samples[..|samples| - 1], cutoff)
         + if samples[|samples| - 1].at >= cutoff then [samples[|samples| - 1]] else []
  }

  ghost predicate Chronological(samples: seq<Sample>) {
    forall i, j :: 0 <= i < j < |samples| ==> samples[i].at <= samples[j].at
  }

  /** The stamps never decrease and never pass the clock. */
  ghost predicate InTime(samples: seq<Sample>, clock: int) {
    Chronological(samples) && forall s :: s in samples ==> s.at <= clock
  }

  // --- cutting a prefix is filtering ---

  lemma {:induction false} PruneCuts(s: seq<Sample>, cutoff: int) returns (cut: nat)
    ensures cut <= |s| && Prune(s, cutoff) == s[cut..]
    ensures forall i :: 0 <= i < cut ==> s[i].at < cutoff
    ensures cut < |s| ==> s[cut].at >= cutoff
  {
    cut := 0;
    if s != [] && s[0].at < cutoff {
      var rest := PruneCuts(s[1..], cutoff);
      cut := rest + 1;
      assert s[1..][rest..] == s[cut..];
      assert forall i :: 1 <= i < cut ==> s[i] == s[1..][i - 1];
    }
  }

  lemma {:induction false} RecentSplit(s: seq<Sample>, cut: nat, cutoff: int)
    requires cut <= |s|
    requires forall i :: 0 <= i < cut ==> s[i].at < cutoff
    requires forall i :: cut <= i < |s| ==> s[i].at >= cutoff
    ensures Recent(s, cutoff) == s[cut..]
  {
    if s != [] {
      var init := s[..|s| - 1];
      if cut == |s| {
        RecentSplit(init, cut - 1, cutoff);
      } else {
        RecentSplit(init, cut, cutoff);
        assert s[cut..] == init[cut..] + [s[|s| - 1]];
      }
    }
  }

  /** Because the clock never runs backwards, cutting a prefix keeps exactly the recent readings. */
  lemma PruneIsFilter(s: seq<Sample>, cutoff: int)
    requires Chronological(s)
    ensures Prune(s, cutoff) == Recent(s, cutoff)
  {
    var cut := PruneCuts(s, cutoff);
    RecentSplit(s, cut, cutoff);
  }

  lemma PruneLast(s: seq<Sample>, n: nat, cutoff: int)
    requires Chronological(s)
    ensures Prune(LastOf(s, n), cutoff) == LastOf(Prune(s, cutoff), n)
  {
    hide Prune;
    var cut := PruneCuts(s, cutoff);
    var rest := PruneCuts(LastOf(s, n), cutoff);
    var skipped := |s| - |LastOf(s, n)|;
    assert forall i :: 0 <= i < |LastOf(s, n)| ==> LastOf(s, n)[i] == s[skipped + i];
    if rest > 0 { assert s[skipped + rest - 1].at < cutoff; }
    if rest < |LastOf(s, n)| { assert s[skipped + rest].at >= cutoff; }
    if cut <= skipped {
      assert rest == 0;
    } else {
      assert rest == cut - skipped;
    }
  }

  lemma PrunePrune(s: seq<Sample>, earlier: int, later: int)
    requires Chronological(s) && earlier <= later
    ensures Prune(Prune(s, earlier), later) == Prune(s, later)
  {
    var cut := PruneCuts(s, earlier);
    var rest := PruneCuts(s[cut..], later);
    var all := PruneCuts(s, later);
    assert s[cut..][rest..] == s[cut + rest..];
    if rest > 0 { assert s[cut + rest - 1] == s[cut..][rest - 1]; }
    if rest < |s[cut..]| { assert s[cut + rest] == s[cut..][rest]; }
    assert all == cut + rest;
  }

  lemma PruneAppend(s: seq<Sample>, x: Sample, cutoff: int)
    requires Chronological(s + [x]) && x.at >= cutoff
    ensures Prune(s + [x], cutoff) == Prune(s, cutoff) + [x]
  {
    assert Chronological(s) by {
      assert forall i :: 0 <= i < |s| ==> (s + [x])[i] == s[i];
    }
    PruneIsFilter(s + [x], cutoff);
    PruneIsFilter(s, cutoff);
    assert (s + [x])[..|s|] == s;
  }

  lemma LastAppend(s: seq<Sample>, x: Sample, n: nat)
    requires n > 0
    ensures LastOf(LastOf(s, n) + [x], n) == LastOf(s + [x], n)
  {
  }

  // --- counted readings, read off the observations alone ---

  /** The window over a history of counted readings: at most the newest 512 of the recent ones. */
  function Window(counted: seq<Sample>, cutoff: int): seq<Sample> {
    LastOf(Recent(counted, cutoff), 512)
  }

  /** Every counted reading since the product's history was last dropped, the time counted, and when the product's
      productivity was last a number. */
  datatype Gauge = Gauge(counted: seq<Sample>, clock: int, lastSeen: Time)

  const NEW_GAUGE := Gauge([], 0, ZeroTime)

  /** The baseline at a moment: the counted readings within the window of the clock. */
  function Base(cfg: Config, g: Gauge): seq<Sample> { Window(g.counted, g.clock - cfg.dropWindow) }

  function TimeSince(g: Gauge, at: Time): nat {
    if g.lastSeen != ZeroTime && at > g.lastSeen then at - g.lastSeen else 0
  }

  /** A productivity as far as it counts: what is above a hundred percent is a boost. */
  function AtMostHundred(productivity: real): real { if productivity <= 100.0 then productivity else 100.0 }

  lemma CappedIs(productivity: real)
    ensures Capped(productivity) == AtMostHundred(productivity)
  {
  }

  /** The counted reading an observation adds, if it adds one: its buildings stand, its productivity is a number, and
      it is not below the baseline while the balance is not negative. */
  function CountedReading(cfg: Config, g: Gauge, at: Time, r: Reading): Option<Sample> {
    if r.buildings == 0 || !r.productivity.Finite? then None
    else
      var prod, base := AtMostHundred(r.productivity.value), Base(cfg, g);
      if r.delta.AtLeastZero() && base != [] && prod < Mean(base) then None
      else Some(Sample(g.clock + TimeSince(g, at), prod))
  }

  function Gauged(cfg: Config, g: Gauge, o: Observation): Gauge {
    match o
    case Gone(_) => NEW_GAUGE
    case Read(_, at, r) =>
      if r.buildings == 0 then NEW_GAUGE
      else if !r.productivity.Finite? then g
      else match CountedReading(cfg, g, at, r)
        case Some(s) => Gauge(g.counted + [s], s.at, at)
        case None => g.(lastSeen := at)
  }

  /** A function of the observations and the window's length, not of the engine. */
  function GaugeOf(cfg: Config, os: seq<Observation>): Gauge {
    if os == [] then NEW_GAUGE else Gauged(cfg, GaugeOf(cfg, os[..|os| - 1]), os[|os| - 1])
  }

  /** The window a reading is compared with: a counted reading moves the clock on first. */
  function WindowAt(cfg: Config, g: Gauge, at: Time, r: Reading): seq<Sample> {
    match CountedReading(cfg, g, at, r)
    case Some(s) => Window(g.counted, s.at - cfg.dropWindow)
    case None => Base(cfg, g)
  }

  // --- the stored samples are the recent counted readings ---

  lemma WindowAdvances(counted: seq<Sample>, earlier: int, later: int)
    requires Chronological(counted) && earlier <= later
    ensures Prune(Window(counted, earlier), later) == Window(counted, later)
  {
    PruneIsFilter(counted, earlier);
    PruneIsFilter(counted, later);
    var cut := PruneCuts(counted, earlier);
    PruneLast(Recent(counted, earlier), MAX_DROP_SAMPLES, later);
    PrunePrune(counted, earlier, later);
  }

  lemma WindowAppends(counted: seq<Sample>, x: Sample, cutoff: int)
    requires Chronological(counted + [x]) && x.at >= cutoff
    ensures AppendSample(Window(counted, cutoff), x) == Window(counted + [x], cutoff)
  {
    assert Chronological(counted) by {
      assert forall i :: 0 <= i < |counted| ==> (counted + [x])[i] == counted[i];
    }
    PruneAppend(counted, x, cutoff);
    PruneIsFilter(counted + [x], cutoff);
    PruneIsFilter(counted, cutoff);
    LastAppend(Recent(counted, cutoff), x, MAX_DROP_SAMPLES);
  }

  /** The reading the rule would append to a product's samples. */
  function StoredReading(ps: Product, at: Time, r: Reading): Option<Sample> {
    if r.buildings != 0 && r.productivity.Finite? && !Idle(ps, r.delta, Capped(r.productivity.value)) then
      Some(Sample(ps.clock + Elapsed(ps, at), Capped(r.productivity.value)))
    else None
  }

  /** What one entry does to the window: an idle or meaningless reading changes neither samples nor
      clock; a counted one advances the clock, prunes and is appended. */
  lemma StepWindow(cfg: Config, ps: Product, c: Context, r: Reading)
    requires r.buildings != 0
    ensures var next := Step(cfg, ps, c, r).0;
      && next.lastSeen == (if r.productivity.Finite? then c.at else ps.lastSeen)
      && match StoredReading(ps, c.at, r)
         case None => next.samples == ps.samples && next.clock == ps.clock
         case Some(s) =>
           next.clock == s.at && next.samples == AppendSample(Prune(ps.samples, s.at - cfg.dropWindow), s)
  {
    DeficitStepLeaves(cfg, ps, c, r);
    hide Mean, Prune, AppendSample, Capped, DeficitStep;
  }

  lemma AppendInTime(counted: seq<Sample>, clock: int, x: Sample)
    requires InTime(counted, clock) && clock <= x.at
    ensures InTime(counted + [x], x.at)
  {
    assert forall i :: 0 <= i < |counted| ==> counted[i] in counted;
  }

  /** The engine's state is the gauge's: clock, last time, and the samples are the baseline. */
  ghost predicate Holds(cfg: Config, ps: Product, g: Gauge) {
    InTime(g.counted, g.clock) && ps.samples == Base(cfg, g) && ps.clock == g.clock && ps.lastSeen == g.lastSeen
  }

  lemma SameReading(cfg: Config, ps: Product, g: Gauge, at: Time, r: Reading)
    requires Holds(cfg, ps, g)
    ensures StoredReading(ps, at, r) == CountedReading(cfg, g, at, r)
    ensures CountedReading(cfg, g, at, r).Some? ==> CountedReading(cfg, g, at, r).value.at >= g.clock
  {
    hide Mean, Window;
  }

  lemma CountedStepHolds(cfg: Config, ps: Product, c: Context, r: Reading, g: Gauge)
    requires Countable(cfg) && Holds(cfg, ps, g) && r.buildings != 0
    ensures Holds(cfg, Step(cfg, ps, c, r).0, Gauged(cfg, g, Read(c.name, c.at, r)))
  {
    hide Step, CountedReading, StoredReading, Window;
    StepWindow(cfg, ps, c, r);
    SameReading(cfg, ps, g, c.at, r);
    NotANumber(cfg, g, c.at, r);
    match CountedReading(cfg, g, c.at, r)
    case None =>
    case Some(s) =>
      AppendInTime(g.counted, g.clock, s);
      WindowAdvances(g.counted, g.clock - cfg.dropWindow, s.at - cfg.dropWindow);
      WindowAppends(g.counted, s, s.at - cfg.dropWindow);
  }

  lemma NotANumber(cfg: Config, g: Gauge, at: Time, r: Reading)
    ensures !r.productivity.Finite? ==> CountedReading(cfg, g, at, r) == None
  {
  }

  lemma {:induction false} ProductHolds(cfg: Config, island: IslandKey, guid: int32, os: seq<Observation>)
    requires Countable(cfg)
    ensures Holds(cfg, ProductOr(Follow(cfg, None, island, guid, os).0), GaugeOf(cfg, os))
  {
    if os == [] {
      NewHolds(cfg, NEW_PRODUCT);
    } else {
      hide Step, CountedReading, Holds;
      var init, o := os[..|os| - 1], os[|os| - 1];
      ProductHolds(cfg, island, guid, init);
      var ps := ProductOr(Follow(cfg, None, island, guid, init).0);
      match o
      case Gone(at) => NewHolds(cfg, ProductOr(Follow(cfg, None, island, guid, os).0));
      case Read(name, at, r) =>
        var c := Context(island, name, guid, at);
        assert Follow(cfg, None, island, guid, os).0 == Some(Step(cfg, ps, c, r).0);
        if r.buildings == 0 {
          DropEndsWindow(cfg, ps, c, r);
          NewHolds(cfg, Step(cfg, ps, c, r).0);
        } else {
          CountedStepHolds(cfg, ps, c, r, GaugeOf(cfg, init));
        }
    }
  }

  lemma NewHolds(cfg: Config, ps: Product)
    requires ps.samples == [] && ps.clock == 0 && ps.lastSeen == ZeroTime
    ensures Holds(cfg, ps, NEW_GAUGE)
  {
  }

  lemma DropEndsWindow(cfg: Config, ps: Product, c: Context, r: Reading)
    requires r.buildings == 0
    ensures var next := Step(cfg, ps, c, r).0;
      next.samples == [] && next.clock == 0 && next.lastSeen == ZeroTime && next.drop.None?
  {
  }

  lemma {:induction false} RecentIsSuffix(s: seq<Sample>, cutoff: int)
    requires Chronological(s)
    ensures Recent(s, cutoff) == LastOf(s, |Recent(s, cutoff)|)
  {
    PruneIsFilter(s, cutoff);
    var cut := PruneCuts(s, cutoff);
  }

  /** For every run and product: the stored samples are the newest at most 512 of the counted readings
      stamped within the window of the product's clock, and these are a suffix of all counted readings. */
  lemma SamplesAreWindow(cfg: Config, inputs: seq<Input>, island: IslandKey, guid: int32)
    requires Countable(cfg)
    ensures
      var ps := ProductOr(Lookup(StateAfter(cfg, inputs).islands, island, guid));
      var g := GaugeOf(cfg, History(inputs, island, guid));
      var recent := Recent(g.counted, g.clock - cfg.dropWindow);
      && ps.samples == LastOf(recent, 512)
      && ps.clock == g.clock
      && recent == LastOf(g.counted, |recent|)
      && InTime(g.counted, g.clock)
  {
    hide Follow, GaugeOf, History, StateAfter, Recent;
    StateIsHistory(cfg, inputs, island, guid);
    var g := GaugeOf(cfg, History(inputs, island, guid));
    ProductHolds(cfg, island, guid, History(inputs, island, guid));
    RecentIsSuffix(g.counted, g.clock - cfg.dropWindow);
  }

  // --- the baseline does not sink while the balance is not negative ---

  ghost predicate AllAtLeast(samples: seq<Sample>, floor: real) {
    forall s :: s in samples ==> s.value >= floor
  }

  lemma {:induction false} SumAtLeast(samples: seq<Sample>, floor: real)
    requires AllAtLeast(samples, floor)
    ensures Sum(samples) >= |samples| as real * floor
  {
    if samples != [] {
      SumAtLeast(samples[..|samples| - 1], floor);
      assert samples[|samples| - 1] in samples;
      assert |samples| as real * floor == (|samples| - 1) as real * floor + floor;
    }
  }

  lemma MeanAtLeast(samples: seq<Sample>, floor: real)
    requires AllAtLeast(samples, floor) && samples != []
    ensures Mean(samples) >= floor
  {
    SumAtLeast(samples, floor);
    QuotientAtLeast(Sum(samples), |samples| as real, floor);
  }

  lemma QuotientAtLeast(total: real, n: real, floor: real)
    requires n > 0.0 && total >= n * floor
    ensures total / n >= floor
  {
    assert n * (total / n) == total;
  }

  /** Buildings stand and the balance is not negative, in every one of the observations. */
  ghost predicate CalmStretch(os: seq<Observation>) {
    forall i :: 0 <= i < |os| ==> os[i].Read? && os[i].reading.buildings != 0 && os[i].reading.delta.AtLeastZero()
  }

  function Least(samples: seq<Sample>): real
    requires samples != []
  {
    if |samples| == 1 then samples[0].value
    else
      var rest := Least(samples[1..]);
      if samples[0].value < rest then samples[0].value else rest
  }

  lemma {:induction false} LeastIsLeast(samples: seq<Sample>)
    requires samples != []
    ensures AllAtLeast(samples, Least(samples)) && exists s :: s in samples && s.value == Least(samples)
  {
    if |samples| == 1 {
      assert samples[0] in samples;
    } else {
      LeastIsLeast(samples[1..]);
      assert samples == [samples[0]] + samples[1..];
      var s :| s in samples[1..] && s.value == Least(samples[1..]);
      assert s in samples && samples[0] in samples;
    }
  }

  /** Where the baseline stands when the stretch begins: the least sample of the window or, with an
      empty window, the first reading the stretch brings. */
  function Floor(samples: seq<Sample>, os: seq<Observation>): Option<real>
    decreases |os|
  {
    if samples != [] then Some(Least(samples))
    else if os == [] then None
    else if os[0].Read? && os[0].reading.productivity.Finite? then Some(AtMostHundred(os[0].reading.productivity.value))
    else Floor(samples, os[1..])
  }

  lemma PruneSubset(samples: seq<Sample>, cutoff: int)
    ensures forall s :: s in Prune(samples, cutoff) ==> s in samples
  {
    var cut := PruneCuts(samples, cutoff);
  }

  lemma KeptAtLeast(samples: seq<Sample>, cutoff: int, s: Sample, floor: real)
    requires AllAtLeast(samples, floor) && s.value >= floor
    ensures AppendSample(Prune(samples, cutoff), s) != [] && AllAtLeast(AppendSample(Prune(samples, cutoff), s), floor)
  {
    PruneSubset(samples, cutoff);
    var kept := Prune(samples, cutoff) + [s];
    assert forall x :: x in AppendSample(Prune(samples, cutoff), s) ==> x in kept;
  }

  /** A counted reading with a balance that is not negative is no lower than the baseline. */
  lemma CalmReadingAtLeast(ps: Product, at: Time, r: Reading, floor: real)
    requires r.buildings != 0 && r.delta.AtLeastZero() && AllAtLeast(ps.samples, floor)
    requires ps.samples == [] && r.productivity.Finite? ==> Capped(r.productivity.value) >= floor
    ensures match StoredReading(ps, at, r)
      case None => ps.samples != [] || !r.productivity.Finite?
      case Some(s) => r.productivity.Finite? && s.value >= floor
  {
    hide Mean, AllAtLeast, Capped, Elapsed;
    if ps.samples != [] { MeanAtLeast(ps.samples, floor); }
  }

  lemma CalmStepKeepsFloor(cfg: Config, ps: Product, c: Context, r: Reading, floor: real)
    requires r.buildings != 0 && r.delta.AtLeastZero()
    requires AllAtLeast(ps.samples, floor)
    requires ps.samples == [] && r.productivity.Finite? ==> Capped(r.productivity.value) >= floor
    ensures var next := Step(cfg, ps, c, r).0;
      AllAtLeast(next.samples, floor)
      && (next.samples != [] <==> ps.samples != [] || r.productivity.Finite?)
  {
    hide Step, Mean, Prune, AppendSample, StoredReading, AllAtLeast;
    StepWindow(cfg, ps, c, r);
    CalmReadingAtLeast(ps, c.at, r, floor);
    match StoredReading(ps, c.at, r)
    case None =>
    case Some(s) => KeptAtLeast(ps.samples, s.at - cfg.dropWindow, s, floor);
  }

  lemma {:induction false} FloorAppend(samples: seq<Sample>, os: seq<Observation>, o: Observation)
    ensures Floor(samples, os + [o]) == if Floor(samples, os).Some? then Floor(samples, os) else Floor(samples, [o])
    decreases |os|
  {
    if os == [] {
      assert os + [o] == [o];
    } else {
      assert (os + [o])[1..] == os[1..] + [o];
      FloorAppend(samples, os[1..], o);
    }
  }

  lemma {:induction false} StretchKeepsFloor(cfg: Config, ps: Option<Product>, island: IslandKey, guid: int32, os: seq<Observation>)
    requires CalmStretch(os)
    ensures
      var after := ProductOr(Follow(cfg, ps, island, guid, os).0).samples;
      match Floor(ProductOr(ps).samples, os)
      case None => after == []
      case Some(floor) => after != [] && AllAtLeast(after, floor)
  {
    if os == [] {
      if ProductOr(ps).samples != [] { LeastIsLeast(ProductOr(ps).samples); }
    } else {
      hide Step, Least, AllAtLeast;
      var init, o := os[..|os| - 1], os[|os| - 1];
      StretchKeepsFloor(cfg, ps, island, guid, init);
      FloorAppend(ProductOr(ps).samples, init, o);
      assert init + [o] == os;
      var before := ProductOr(Follow(cfg, ps, island, guid, init).0);
      var c := Context(island, o.name, guid, o.at);
      assert Follow(cfg, ps, island, guid, os).0 == Some(Step(cfg, before, c, o.reading).0);
      assert Floor([], [o][1..]) == None;
      var floor := if Floor(ProductOr(ps).samples, os).Some? then Floor(ProductOr(ps).samples, os).value else 0.0;
      assert AllAtLeast([], floor) by { NoneBelow(floor); }
      CalmStepKeepsFloor(cfg, before, c, o.reading, floor);
    }
  }

  lemma NoneBelow(floor: real)
    ensures AllAtLeast([], floor)
  {
  }

  /** Over any stretch of observations with buildings present and a balance that is not negative, however
      long, every reading in the window, and so its mean, stays at or above the least reading the window
      held when the stretch began, or the first reading if it was empty. */
  lemma BaselineFloor(cfg: Config, island: IslandKey, guid: int32, before: seq<Observation>, stretch: seq<Observation>)
    requires CalmStretch(stretch)
    ensures
      var start := ProductOr(Follow(cfg, None, island, guid, before).0).samples;
      var now := ProductOr(Follow(cfg, None, island, guid, before + stretch).0).samples;
      match Floor(start, stretch)
      case None => now == []
      case Some(floor) => AllAtLeast(now, floor) && Mean(now) >= floor
  {
    FollowAppend(cfg, None, island, guid, before, stretch);
    StretchKeepsFloor(cfg, Follow(cfg, None, island, guid, before).0, island, guid, stretch);
    var start := ProductOr(Follow(cfg, None, island, guid, before).0).samples;
    var now := ProductOr(Follow(cfg, None, island, guid, before + stretch).0).samples;
    if Floor(start, stretch).Some? {
      MeanAtLeast(now, Floor(start, stretch).value);
    }
  }

  // --- what a drop alert says ---

  ghost predicate RaisesDrop(events: seq<Event>) {
    exists e :: e in events && e.kind == Raised && e.alert.rule == ProductivityDrop
  }

  /** A reading after these observations meets the conditions of a new drop. */
  ghost predicate Due(cfg: Config, os: seq<Observation>, o: Observation) {
    && o.Read?
    && NegativeTail(Readings(os + [o]), cfg.dropNegativeSamples)
    && CountedReading(cfg, GaugeOf(cfg, os), o.at, o.reading).Some?
    && var window := WindowAt(cfg, GaugeOf(cfg, os), o.at, o.reading);
       |window| >= cfg.minSamplesForDrop
       && cfg.dropPercentagePoints.Less(
            Finite(Mean(window) - CountedReading(cfg, GaugeOf(cfg, os), o.at, o.reading).value.value))
  }

  /** An observation after these ends a drop: the product is gone, or has no buildings, or a number for its productivity
      comes with calm balances or close to the window's mean. */
  ghost predicate Over(cfg: Config, os: seq<Observation>, o: Observation) {
    || o.Gone?
    || o.reading.buildings == 0
    || (o.reading.productivity.Finite?
        && var window := WindowAt(cfg, GaugeOf(cfg, os), o.at, o.reading);
           CalmTail(Readings(os + [o]), cfg.deficitClearSamples)
           || (|window| >= cfg.minSamplesForDrop
               && Finite(Mean(window) - AtMostHundred(o.reading.productivity.value)).AtMost(cfg.dropClearPercentagePoints)))
  }

  /** When one entry raises a drop, as a condition on the state its deficit rule left. */
  lemma DropStepRaises(cfg: Config, ps: Product, c: Context, r: Reading)
    requires Countable(cfg) && (ps.negative > 0 ==> r.delta.Negative())
    ensures RaisesDrop(DropStep(cfg, ps, c, r).1) <==>
      && StoredReading(ps, c.at, r).Some?
      && ps.drop.None?
      && ps.negative >= cfg.dropNegativeSamples
      && var reading := StoredReading(ps, c.at, r).value;
         var window := Prune(ps.samples, reading.at - cfg.dropWindow);
         |window| >= cfg.minSamplesForDrop && cfg.dropPercentagePoints.Less(Finite(Mean(window) - reading.value))
  {
    hide Mean, Prune, AppendSample, Capped, Elapsed;
    var events := DropStep(cfg, ps, c, r).1;
    assert RaisesDrop(events) <==> events != [] && events[0].kind == Raised && events[0].alert.rule == ProductivityDrop by {
      assert |events| <= 1;
    }
  }

  lemma StepRaisesDrop(cfg: Config, ps: Product, c: Context, r: Reading)
    requires Countable(cfg) && WellKeyed(ps, c.island, c.guid)
    ensures RaisesDrop(Step(cfg, ps, c, r).1) <==> RaisesDrop(DropStep(cfg, DeficitStep(cfg, ps, c, r).0, c, r).1)
    ensures var counted := DeficitStep(cfg, ps, c, r).0;
      && counted.(negative := ps.negative, nonNegative := ps.nonNegative, deficit := ps.deficit) == ps
      && counted.negative == CountStreak(ps, r.delta).negative
      && (counted.negative > 0 ==> r.delta.Negative())
      && StoredReading(counted, c.at, r) == StoredReading(ps, c.at, r)
  {
    hide Mean, DropStep;
    var (counted, deficits) := DeficitStep(cfg, ps, c, r);
    assert forall e :: e in deficits && e.kind == Raised ==> e.alert.rule != ProductivityDrop;
  }

  lemma NegativesAfter(cfg: Config, island: IslandKey, guid: int32, os: seq<Observation>, o: Observation)
    requires Countable(cfg) && o.Read?
    ensures NegativeTail(Readings(os + [o]), cfg.dropNegativeSamples)
      <==> CountStreak(ProductOr(Follow(cfg, None, island, guid, os).0), o.reading.delta).negative >= cfg.dropNegativeSamples
  {
    hide Follow, NegativeTail, CountStreak;
    var ps := ProductOr(Follow(cfg, None, island, guid, os).0);
    StreaksCount(cfg, island, guid, os);
    StreakExtends(ps, Readings(os), o.reading);
    assert (os + [o])[..|os|] == os;
    assert Readings(os + [o]) == Readings(os) + [o.reading];
  }

  /** What the engine compares a reading with is the window of the history up to it. */
  lemma WindowBefore(cfg: Config, ps: Product, g: Gauge, at: Time, r: Reading)
    requires Countable(cfg) && Holds(cfg, ps, g)
    ensures StoredReading(ps, at, r) == CountedReading(cfg, g, at, r)
    ensures match CountedReading(cfg, g, at, r)
      case None => ps.samples == WindowAt(cfg, g, at, r)
      case Some(s) => Prune(ps.samples, s.at - cfg.dropWindow) == WindowAt(cfg, g, at, r)
  {
    hide Window, Prune, CountedReading, StoredReading;
    SameReading(cfg, ps, g, at, r);
    match CountedReading(cfg, g, at, r)
    case None =>
    case Some(s) => WindowAdvances(g.counted, g.clock - cfg.dropWindow, s.at - cfg.dropWindow);
  }

  /** A drop is raised by a reading exactly when no drop is open, the last DropNegativeSamples balances were
      all negative, and at least MinSamplesForDrop counted readings within the window average more than
      DropPercentagePoints above the capped productivity: all but the open alert read off the observations. */
  lemma DropRaisedIff(cfg: Config, island: IslandKey, guid: int32, os: seq<Observation>, o: Observation)
    requires Countable(cfg) && o.Read?
    ensures
      var ps := Follow(cfg, None, island, guid, os).0;
      RaisesDrop(Observe(cfg, ps, island, guid, o).1) <==> OpenOf(ps, ProductivityDrop).None? && Due(cfg, os, o)
  {
    hide Step, DeficitStep, DropStep, CountedReading, StoredReading, WindowAt, Mean, Window, Prune, Follow, GaugeOf, RaisesDrop,
      CountStreak, NegativeTail, Readings, Holds;
    var ps := Follow(cfg, None, island, guid, os).0;
    var c := Context(island, o.name, guid, o.at);
    FollowHeard(cfg, None, island, guid, os, AlertKey(island, guid, Deficit));
    StepRaisesDrop(cfg, ProductOr(ps), c, o.reading);
    DropStepRaises(cfg, DeficitStep(cfg, ProductOr(ps), c, o.reading).0, c, o.reading);
    NegativesAfter(cfg, island, guid, os, o);
    ProductHolds(cfg, island, guid, os);
    WindowBefore(cfg, ProductOr(ps), GaugeOf(cfg, os), o.at, o.reading);
  }

  /** When one entry ends an open drop, as a condition on the state its deficit rule left. */
  lemma DropStepEnds(cfg: Config, ps: Product, c: Context, r: Reading)
    requires ps.drop.Some?
    ensures DropStep(cfg, ps, c, r).0.drop.None? <==>
      || r.buildings == 0
      || (r.productivity.Finite?
          && var prod := Capped(r.productivity.value);
             var base := Baseline(cfg, ps, c, r.delta, prod).samples;
             ps.nonNegative >= cfg.deficitClearSamples
             || (|base| >= cfg.minSamplesForDrop && Finite(Mean(base) - prod).AtMost(cfg.dropClearPercentagePoints)))
  {
    hide Mean, Prune, AppendSample, Capped, Elapsed, Idle;
  }

  lemma BaselineIsWindow(cfg: Config, ps: Product, g: Gauge, c: Context, r: Reading)
    requires Countable(cfg) && Holds(cfg, ps, g) && r.buildings != 0 && r.productivity.Finite?
    ensures Baseline(cfg, ps, c, r.delta, Capped(r.productivity.value)).samples == WindowAt(cfg, g, c.at, r)
  {
    hide WindowAt, CountedReading, Holds, Prune, Mean, Capped, Elapsed, Idle;
    WindowBefore(cfg, ps, g, c.at, r);
  }

  lemma CalmAfter(cfg: Config, island: IslandKey, guid: int32, os: seq<Observation>, o: Observation)
    requires Countable(cfg) && o.Read?
    ensures CalmTail(Readings(os + [o]), cfg.deficitClearSamples)
      <==> CountStreak(ProductOr(Follow(cfg, None, island, guid, os).0), o.reading.delta).nonNegative >= cfg.deficitClearSamples
  {
    hide Follow, CalmTail, CountStreak;
    var ps := ProductOr(Follow(cfg, None, island, guid, os).0);
    StreaksCount(cfg, island, guid, os);
    StreakExtends(ps, Readings(os), o.reading);
    assert (os + [o])[..|os|] == os;
    assert Readings(os + [o]) == Readings(os) + [o.reading];
  }

  lemma DeficitStepLeaves(cfg: Config, ps: Product, c: Context, r: Reading)
    ensures var counted := DeficitStep(cfg, ps, c, r).0;
      && counted.(negative := ps.negative, nonNegative := ps.nonNegative, deficit := ps.deficit) == ps
      && counted.nonNegative == CountStreak(ps, r.delta).nonNegative
  {
  }

  /** An open drop ends with a reading exactly when its buildings are gone, or its productivity is a number and either
      the last DeficitClearSamples balances were all calm or at least MinSamplesForDrop readings in the window average
      no more than DropClearPercentagePoints above the capped productivity. */
  lemma DropEndedIff(cfg: Config, island: IslandKey, guid: int32, os: seq<Observation>, o: Observation)
    requires Countable(cfg) && o.Read? && OpenOf(Follow(cfg, None, island, guid, os).0, ProductivityDrop).Some?
    ensures
      var ps := Follow(cfg, None, island, guid, os).0;
      OpenOf(Observe(cfg, ps, island, guid, o).0, ProductivityDrop).None? <==> Over(cfg, os, o)
  {
    hide DeficitStep, DropStep, WindowAt, Mean, Follow, GaugeOf, CountStreak, CalmTail, Readings, Capped, Baseline, Holds;
    var ps := Follow(cfg, None, island, guid, os).0;
    var c := Context(island, o.name, guid, o.at);
    var counted := DeficitStep(cfg, ProductOr(ps), c, o.reading).0;
    DeficitStepLeaves(cfg, ProductOr(ps), c, o.reading);
    DropStepEnds(cfg, counted, c, o.reading);
    CalmAfter(cfg, island, guid, os, o);
    if o.reading.buildings != 0 && o.reading.productivity.Finite? {
      ProductHolds(cfg, island, guid, os);
      BaselineIsWindow(cfg, ProductOr(ps), GaugeOf(cfg, os), c, o.reading);
      CappedIs(o.reading.productivity.value);
      SameBaseline(cfg, ProductOr(ps), counted, c, o.reading.delta, Capped(o.reading.productivity.value));
    }
  }

  lemma SameBaseline(cfg: Config, a: Product, b: Product, c: Context, delta: Float, prod: real)
    requires a.samples == b.samples && a.clock == b.clock && a.lastSeen == b.lastSeen
    ensures Baseline(cfg, a, c, delta, prod).samples == Baseline(cfg, b, c, delta, prod).samples
  {
    hide Mean, Prune;
  }

  /** A drop left open by an entry: buildings stand, and a finite productivity was not met by a recovered balance. */
  lemma StepLeavesDropOpen(cfg: Config, ps: Product, c: Context, r: Reading)
    requires Countable(cfg)
    ensures var next := Step(cfg, ps, c, r).0;
      next.drop.Some? ==>
        r.buildings != 0 && (r.productivity.Finite? ==> next.nonNegative < cfg.deficitClearSamples)
  {
    hide Mean, Prune, AppendSample, Capped, Elapsed;
  }

  lemma GoneEndsDrop(cfg: Config, ps: Option<Product>, island: IslandKey, guid: int32, o: Observation)
    ensures o.Gone? ==> OpenOf(Observe(cfg, ps, island, guid, o).0, ProductivityDrop).None?
  {
  }

  /** After every snapshot with goods in it, a drop open on its island is one of a product the snapshot lists
      with buildings, and, if its productivity was a number, fewer than DeficitClearSamples calm readings in a
      row have passed. */
  lemma OpenDropIsListed(cfg: Config, inputs: seq<Input>, s: IslandSnapshot, guid: int32)
    requires Countable(cfg) && s.products != []
    requires OpenAlert(StateAfter(cfg, inputs + [Apply(s)]), AlertKey(s.key, guid, ProductivityDrop)).Some?
    ensures
      var entries := ByKey(s.products, GuidOf, guid);
      var all := Readings(History(inputs + [Apply(s)], s.key, guid));
      && entries != []
      && entries[|entries| - 1].buildings != 0
      && (FloatOf(entries[|entries| - 1].avgProductivity).Finite? ==> !CalmTail(all, cfg.deficitClearSamples))
  {
    hide Step, FloatOf, Readings, CalmTail, StateAfter;
    var run := inputs + [Apply(s)];
    var os := History(run, s.key, guid);
    var entries := ByKey(s.products, GuidOf, guid);
    assert run[..|run| - 1] == inputs;
    StateIsHistory(cfg, run, s.key, guid);
    assert os == History(inputs, s.key, guid) + Observations(s, s.key, guid);
    var init, o := os[..|os| - 1], os[|os| - 1];
    assert o == Observations(s, s.key, guid)[|Observations(s, s.key, guid)| - 1];
    var ps := ProductOr(Follow(cfg, None, s.key, guid, init).0);
    GoneEndsDrop(cfg, Follow(cfg, None, s.key, guid, init).0, s.key, guid, o);
    assert o.Read?;
    StepLeavesDropOpen(cfg, ps, Context(s.key, o.name, guid, o.at), o.reading);
    StreaksCount(cfg, s.key, guid, os);
    assert o.reading == ReadingOf(entries[|entries| - 1]);
    assert Follow(cfg, None, s.key, guid, os).0 == Some(Step(cfg, ps, Context(s.key, o.name, guid, o.at), o.reading).0);
  }
}
