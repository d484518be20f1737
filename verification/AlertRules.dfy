/** The three alert rules, for one product on one island, as functions on its state. */
module AlertRules {
  import opened Model

  datatype Rule = Deficit | NoLocalProduction | ProductivityDrop {
    /** The position of the rule's name in alphabetical order. */
    function Rank(): int { match this case Deficit => 0 case NoLocalProduction => 1 case ProductivityDrop => 2 }
  }

  datatype Severity = Warning | Info

  datatype Alert = Alert(
    island: IslandKey,
    islandName: seq<byte>,
    guid: int32,
    rule: Rule,
    severity: Severity,
    raisedAt: Time,
    clearedAt: Time,
    value: Float)

  datatype Kind = Raised | Cleared

  datatype Event = Event(kind: Kind, alert: Alert)

  datatype AlertKey = AlertKey(island: IslandKey, guid: int32, rule: Rule)

  function KeyOf(a: Alert): AlertKey { AlertKey(a.island, a.guid, a.rule) }

  function EventKey(e: Event): AlertKey { KeyOf(e.alert) }

  /** Every list of alerts is ordered by island, then product, then rule. */
  predicate AlertLeq(a: AlertKey, b: AlertKey) {
    if a.island != b.island then IslandLeq(a.island, b.island)
    else if a.guid != b.guid then a.guid < b.guid
    else a.rule.Rank() <= b.rule.Rank()
  }

  datatype Config = Config(
    deficitSamples: int,
    deficitClearSamples: int,
    dropPercentagePoints: Float,
    dropClearPercentagePoints: Float,
    dropNegativeSamples: int,
    dropWindow: int,
    minSamplesForDrop: int)

  const MINUTE: int := 60_000_000_000
  const DEFAULT_CONFIG := Config(3, 3, Finite(20.0), Finite(10.0), 2, 15 * MINUTE, 3)
  const MAX_DROP_SAMPLES: nat := 512
  const MAX_PRODUCTIVITY: real := 100.0

  function WithDefaults(c: Config): Config {
    var d, zero := DEFAULT_CONFIG, Finite(0.0);
    var raise := if c.dropPercentagePoints.AtMost(zero) then d.dropPercentagePoints else c.dropPercentagePoints;
    var clear := if c.dropClearPercentagePoints.AtMost(zero) then d.dropClearPercentagePoints else c.dropClearPercentagePoints;
    Config(
      if c.deficitSamples < 1 then d.deficitSamples else c.deficitSamples,
      if c.deficitClearSamples < 1 then d.deficitClearSamples else c.deficitClearSamples,
      raise,
      if raise.AtMost(clear) then raise.Half() else clear,
      if c.dropNegativeSamples < 1 then d.dropNegativeSamples else c.dropNegativeSamples,
      if c.dropWindow <= 0 then d.dropWindow else c.dropWindow,
      if c.minSamplesForDrop < 1 then d.minSamplesForDrop else c.minSamplesForDrop)
  }

  /** What the rules count with is positive. */
  predicate Countable(c: Config) {
    && c.deficitSamples >= 1 && c.deficitClearSamples >= 1
    && c.dropNegativeSamples >= 1 && c.minSamplesForDrop >= 1
    && c.dropWindow > 0
  }

  /** Everything the rules rely on: and there is a gap between raising and clearing. */
  predicate Usable(c: Config) {
    && Countable(c)
    && Finite(0.0).Less(c.dropClearPercentagePoints)
    && c.dropClearPercentagePoints.Less(c.dropPercentagePoints)
  }

  /** One productivity reading, stamped with the product's own clock. */
  datatype Sample = Sample(at: int, value: real)

  /** One product's rule state. */
  datatype Product = Product(
    negative: nat,
    nonNegative: nat,
    deficit: Option<Alert>,
    samples: seq<Sample>,
    drop: Option<Alert>,
    clock: int,
    lastSeen: Time)

  const NEW_PRODUCT := Product(0, 0, None, [], None, 0, ZeroTime)

  /** What the rules read of one product entry. */
  datatype Reading = Reading(delta: Float, buildings: int32, productivity: Float)

  function ReadingOf(p: ProductStat): Reading {
    Reading(FloatOf(p.delta), p.buildings, FloatOf(p.avgProductivity))
  }

  /** Which product a reading is about, and when and under which island name it arrived. */
  datatype Context = Context(island: IslandKey, name: seq<byte>, guid: int32, at: Time)

  // --- the deficit rule ---

  function CountStreak(ps: Product, delta: Float): Product {
    if delta.Negative() then ps.(negative := ps.negative + 1, nonNegative := 0)
    else ps.(nonNegative := ps.nonNegative + 1, negative := 0)
  }

  function DeficitRule(buildings: int): Rule {
    if buildings == 0 then NoLocalProduction else Deficit
  }

  function SeverityOf(rule: Rule): Severity {
    if rule == NoLocalProduction then Info else Warning
  }

  function RaisedAlert(c: Context, rule: Rule, value: Float): Alert {
    Alert(c.island, c.name, c.guid, rule, SeverityOf(rule), c.at, ZeroTime, value)
  }

  /** An alert of the other deficit rule describes a situation that is over. */
  function EndOtherDeficit(ps: Product, c: Context, r: Reading): (Product, seq<Event>) {
    if ps.deficit.Some? && ps.deficit.value.rule != DeficitRule(r.buildings) then
      (ps.(deficit := None), [Event(Cleared, ps.deficit.value.(clearedAt := c.at, value := r.delta))])
    else (ps, [])
  }

  function JudgeDeficit(cfg: Config, ps: Product, c: Context, r: Reading): (Product, seq<Event>) {
    if ps.deficit.None? && ps.negative >= cfg.deficitSamples then
      var a := RaisedAlert(c, DeficitRule(r.buildings), r.delta);
      (ps.(deficit := Some(a)), [Event(Raised, a)])
    else if ps.deficit.Some? && ps.nonNegative >= cfg.deficitClearSamples then
      (ps.(deficit := None), [Event(Cleared, ps.deficit.value.(clearedAt := c.at, value := r.delta))])
    else if ps.deficit.Some? then
      (ps.(deficit := Some(ps.deficit.value.(islandName := c.name, value := r.delta))), [])
    else (ps, [])
  }

  function DeficitStep(cfg: Config, ps: Product, c: Context, r: Reading): (Product, seq<Event>) {
    var (ended, clearings) := EndOtherDeficit(CountStreak(ps, r.delta), c, r);
    var (judged, events) := JudgeDeficit(cfg, ended, c, r);
    (judged, clearings + events)
  }

  // --- the productivity drop rule ---

  function Sum(samples: seq<Sample>): real {
    if samples == [] then 0.0 else Sum(samples[..|samples| - 1]) + samples[|samples| - 1].value
  }

  function Mean(samples: seq<Sample>): real {
    if samples == [] then 0.0 else Sum(samples) / |samples| as real
  }

  /** Cuts the readings older than the cutoff off the front. */
  function Prune(samples: seq<Sample>, cutoff: int): seq<Sample> {
    if samples != [] && samples[0].at < cutoff then Prune(samples[1..], cutoff) else samples
  }

  function LastOf<T>(s: seq<T>, n: nat): seq<T> {
    if |s| <= n then s else s[|s| - n..]
  }

  function AppendSample(samples: seq<Sample>, s: Sample): seq<Sample> {
    LastOf(samples + [s], MAX_DROP_SAMPLES)
  }

  function Capped(productivity: real): real {
    if productivity < MAX_PRODUCTIVITY then productivity else MAX_PRODUCTIVITY
  }

  /** A reading below the baseline while the balance is not negative is left out of the history. */
  predicate Idle(ps: Product, delta: Float, prod: real) {
    delta.AtLeastZero() && ps.samples != [] && prod < Mean(ps.samples)
  }

  /** Time passed since the previous reading; a clock that jumps back passes no time. */
  function Elapsed(ps: Product, at: Time): nat {
    if ps.lastSeen != ZeroTime && at > ps.lastSeen then at - ps.lastSeen else 0
  }

  function ClearDrop(ps: Product, at: Time, prod: real): (Product, seq<Event>)
    requires ps.drop.Some?
  {
    (ps.(drop := None), [Event(Cleared, ps.drop.value.(clearedAt := at, value := Finite(prod)))])
  }

  /** The history and the open alert of a product whose buildings are gone. */
  function EndDrop(ps: Product, at: Time): (Product, seq<Event>) {
    (ps.(samples := [], clock := 0, lastSeen := ZeroTime, drop := None),
     if ps.drop.Some? then [Event(Cleared, ps.drop.value.(clearedAt := at))] else [])
  }

  function JudgeDrop(cfg: Config, ps: Product, c: Context, prod: real, mean: real, n: nat): (Product, seq<Event>) {
    if ps.drop.Some? && ps.nonNegative >= cfg.deficitClearSamples then ClearDrop(ps, c.at, prod)
    else if n < cfg.minSamplesForDrop then (ps, [])
    else if ps.drop.None? && cfg.dropPercentagePoints.Less(Finite(mean - prod)) && ps.negative >= cfg.dropNegativeSamples then
      var a := RaisedAlert(c, ProductivityDrop, Finite(prod));
      (ps.(drop := Some(a)), [Event(Raised, a)])
    else if ps.drop.Some? && Finite(mean - prod).AtMost(cfg.dropClearPercentagePoints) then ClearDrop(ps, c.at, prod)
    else if ps.drop.Some? then
      (ps.(drop := Some(ps.drop.value.(islandName := c.name, value := Finite(prod)))), [])
    else (ps, [])
  }

  /** The history a reading is compared with: clock advanced and pruned, unless the reading is idle. */
  function Baseline(cfg: Config, ps: Product, c: Context, delta: Float, prod: real): Product {
    if Idle(ps, delta, prod) then ps.(lastSeen := c.at)
    else
      var clock := ps.clock + Elapsed(ps, c.at);
      ps.(lastSeen := c.at, clock := clock, samples := Prune(ps.samples, clock - cfg.dropWindow))
  }

  function DropStep(cfg: Config, ps: Product, c: Context, r: Reading): (Product, seq<Event>) {
    if r.buildings == 0 then EndDrop(ps, c.at)
    else if !r.productivity.Finite? then (ps, [])
    else
      var prod := Capped(r.productivity.value);
      var base := Baseline(cfg, ps, c, r.delta, prod);
      var (judged, events) := JudgeDrop(cfg, base, c, prod, Mean(base.samples), |base.samples|);
      (if Idle(ps, r.delta, prod) then judged
       else judged.(samples := AppendSample(judged.samples, Sample(judged.clock, prod))),
       events)
  }

  /** One product entry of a snapshot: the deficit rule runs first, the drop rule reads its streaks. */
  function Step(cfg: Config, ps: Product, c: Context, r: Reading): (Product, seq<Event>) {
    var (counted, deficits) := DeficitStep(cfg, ps, c, r);
    var (next, drops) := DropStep(cfg, counted, c, r);
    (next, deficits + drops)
  }
}
