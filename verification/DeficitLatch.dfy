/** When a deficit alert is open, read off the whole history of a product. */
module DeficitLatch {
  import opened Model
  import opened Sorting
  import opened AlertRules
  import opened AlertRuns

  function Readings(os: seq<Observation>): seq<Reading> {
    if os == [] then []
    else Readings(os[..|os| - 1]) + if os[|os| - 1].Read? then [os[|os| - 1].reading] else []
  }

  /** The n readings ending with the i-th all have a negative balance. */
  ghost predicate NegativeRunEndsAt(rs: seq<Reading>, i: int, n: int) {
    -1 <= i - n && i < |rs| && forall j :: i - n < j <= i ==> rs[j].delta.Negative()
  }

  /** The n readings ending with the i-th all have a balance that is not negative. */
  ghost predicate CalmRunEndsAt(rs: seq<Reading>, i: int, n: int) {
    -1 <= i - n && i < |rs| && forall j :: i - n < j <= i ==> !rs[j].delta.Negative()
  }

  ghost predicate NegativeTail(rs: seq<Reading>, n: int) { NegativeRunEndsAt(rs, |rs| - 1, n) }

  ghost predicate CalmTail(rs: seq<Reading>, n: int) { CalmRunEndsAt(rs, |rs| - 1, n) }

  /** Reading i completed a run of negative balances, the island's situation has been rule's ever
      since, and no run of calm readings has completed after it. */
  ghost predicate Latched(cfg: Config, rs: seq<Reading>, rule: Rule, i: int) {
    && 0 <= i < |rs|
    && NegativeRunEndsAt(rs, i, cfg.deficitSamples)
    && (forall j :: i <= j < |rs| ==> DeficitRule(rs[j].buildings) == rule)
    && (forall j :: i < j < |rs| ==> !CalmRunEndsAt(rs, j, cfg.deficitClearSamples))
  }

  ghost predicate IsLatched(cfg: Config, rs: seq<Reading>, rule: Rule) {
    exists i :: Latched(cfg, rs, rule, i)
  }

  /** The counters are the lengths of the trailing runs. */
  ghost predicate CountsTrailing(ps: Product, rs: seq<Reading>) {
    && (forall n :: n >= 1 ==> (NegativeTail(rs, n) <==> ps.negative >= n))
    && (forall n :: n >= 1 ==> (CalmTail(rs, n) <==> ps.nonNegative >= n))
  }

  lemma DropStepKeepsStreaks(cfg: Config, ps: Product, c: Context, r: Reading)
    ensures var next := DropStep(cfg, ps, c, r).0;
      next.negative == ps.negative && next.nonNegative == ps.nonNegative && next.deficit == ps.deficit
  {
    hide Prune, Mean, Idle, Elapsed, AppendSample, Capped;
  }

  lemma StepKeepsStreaks(cfg: Config, ps: Product, c: Context, r: Reading)
    ensures var next := Step(cfg, ps, c, r).0; var counted := CountStreak(ps, r.delta);
      && next.negative == counted.negative && next.nonNegative == counted.nonNegative
      && next.deficit == DeficitStep(cfg, ps, c, r).0.deficit
  {
    hide DropStep;
    DropStepKeepsStreaks(cfg, DeficitStep(cfg, ps, c, r).0, c, r);
  }

  lemma RunExtends(rs: seq<Reading>, r: Reading, n: int)
    requires n >= 1
    ensures NegativeTail(rs + [r], n) <==> r.delta.Negative() && (n == 1 || NegativeTail(rs, n - 1))
    ensures CalmTail(rs + [r], n) <==> !r.delta.Negative() && (n == 1 || CalmTail(rs, n - 1))
  {
    assert (rs + [r])[|rs|] == r;
    assert forall j :: 0 <= j < |rs| ==> (rs + [r])[j] == rs[j];
  }

  lemma StreakExtends(ps: Product, rs: seq<Reading>, r: Reading)
    requires CountsTrailing(ps, rs)
    ensures CountsTrailing(CountStreak(ps, r.delta), rs + [r])
  {
    var counted := CountStreak(ps, r.delta);
    hide NegativeTail, CalmTail;
    forall n | n >= 1
      ensures NegativeTail(rs + [r], n) <==> counted.negative >= n
      ensures CalmTail(rs + [r], n) <==> counted.nonNegative >= n
    {
      RunExtends(rs, r, n);
    }
  }

  lemma {:induction false} StreaksCount(cfg: Config, island: IslandKey, guid: int32, os: seq<Observation>)
    ensures var ps := Follow(cfg, None, island, guid, os).0;
      CountsTrailing(if ps.Some? then ps.value else NEW_PRODUCT, Readings(os))
      && (ps.None? ==> Readings(os) == [])
  {
    if os != [] {
      var init, o := os[..|os| - 1], os[|os| - 1];
      StreaksCount(cfg, island, guid, init);
      var before := Follow(cfg, None, island, guid, init).0;
      if o.Read? {
        var ps := if before.Some? then before.value else NEW_PRODUCT;
        StepKeepsStreaks(cfg, ps, Context(island, o.name, guid, o.at), o.reading);
        StreakExtends(ps, Readings(init), o.reading);
      } else {
        assert Readings(os) == Readings(init);
      }
    }
  }

  lemma OpenAfterStep(cfg: Config, ps: Product, c: Context, r: Reading, rule: Rule)
    requires Countable(cfg) && WellKeyed(ps, c.island, c.guid) && rule != ProductivityDrop
    ensures var counted := CountStreak(ps, r.delta);
      OpenIn(DeficitStep(cfg, ps, c, r).0, rule).Some? <==>
        DeficitRule(r.buildings) == rule
        && (counted.negative >= cfg.deficitSamples
            || (OpenIn(ps, rule).Some? && counted.nonNegative < cfg.deficitClearSamples))
  {
  }

  lemma LatchExtends(cfg: Config, rs: seq<Reading>, r: Reading, rule: Rule)
    requires Countable(cfg)
    ensures IsLatched(cfg, rs + [r], rule) <==>
      DeficitRule(r.buildings) == rule
      && (NegativeRunEndsAt(rs + [r], |rs|, cfg.deficitSamples)
          || (IsLatched(cfg, rs, rule) && !CalmRunEndsAt(rs + [r], |rs|, cfg.deficitClearSamples)))
  {
    var all := rs + [r];
    assert all[|rs|] == r;
    assert Latched(cfg, all, rule, |rs|) <==>
      DeficitRule(r.buildings) == rule && NegativeRunEndsAt(all, |rs|, cfg.deficitSamples);
    forall i | 0 <= i < |rs|
      ensures NegativeRunEndsAt(all, i, cfg.deficitSamples) <==> NegativeRunEndsAt(rs, i, cfg.deficitSamples)
      ensures CalmRunEndsAt(all, i, cfg.deficitClearSamples) <==> CalmRunEndsAt(rs, i, cfg.deficitClearSamples)
    {
      assert forall j :: 0 <= j <= i ==> all[j] == rs[j];
    }
    forall i | 0 <= i < |rs|
      ensures Latched(cfg, all, rule, i) <==>
        Latched(cfg, rs, rule, i) && DeficitRule(r.buildings) == rule && !CalmRunEndsAt(all, |rs|, cfg.deficitClearSamples)
    {
      assert forall j :: 0 <= j < |rs| ==> all[j] == rs[j];
    }
    if i :| Latched(cfg, all, rule, i) {
      assert i == |rs| || Latched(cfg, rs, rule, i);
    }
    if i :| Latched(cfg, rs, rule, i) {
      assert Latched(cfg, all, rule, i) <==>
        DeficitRule(r.buildings) == rule && !CalmRunEndsAt(all, |rs|, cfg.deficitClearSamples);
    }
  }

  lemma LatchStep(cfg: Config, ps: Product, c: Context, r: Reading, rs: seq<Reading>, rule: Rule)
    requires Countable(cfg) && WellKeyed(ps, c.island, c.guid) && rule != ProductivityDrop
    requires CountsTrailing(ps, rs)
    requires OpenIn(ps, rule).Some? <==> IsLatched(cfg, rs, rule)
    ensures OpenIn(Step(cfg, ps, c, r).0, rule).Some? <==> IsLatched(cfg, rs + [r], rule)
  {
    hide Step, DeficitStep, CountStreak, IsLatched, NegativeRunEndsAt, CalmRunEndsAt;
    StepKeepsStreaks(cfg, ps, c, r);
    OpenAfterStep(cfg, ps, c, r, rule);
    StreakExtends(ps, rs, r);
    LatchExtends(cfg, rs, r, rule);
    assert NegativeTail(rs + [r], cfg.deficitSamples) <==> CountStreak(ps, r.delta).negative >= cfg.deficitSamples;
    assert CalmTail(rs + [r], cfg.deficitClearSamples) <==> CountStreak(ps, r.delta).nonNegative >= cfg.deficitClearSamples;
  }

  lemma {:induction false} ProductLatch(cfg: Config, island: IslandKey, guid: int32, os: seq<Observation>, rule: Rule)
    requires Countable(cfg) && rule != ProductivityDrop
    ensures OpenOf(Follow(cfg, None, island, guid, os).0, rule).Some? <==> IsLatched(cfg, Readings(os), rule)
  {
    hide Step, IsLatched;
    if os != [] {
      var init, o := os[..|os| - 1], os[|os| - 1];
      var before := Follow(cfg, None, island, guid, init).0;
      ProductLatch(cfg, island, guid, init, rule);
      FollowHeard(cfg, None, island, guid, init, AlertKey(island, guid, rule));
      StreaksCount(cfg, island, guid, init);
      if o.Read? {
        var ps := if before.Some? then before.value else NEW_PRODUCT;
        LatchStep(cfg, ps, Context(island, o.name, guid, o.at), o.reading, Readings(init), rule);
        assert Readings(os) == Readings(init) + [o.reading];
        assert Follow(cfg, None, island, guid, os).0 == Some(Step(cfg, ps, Context(island, o.name, guid, o.at), o.reading).0);
      } else {
        assert Readings(os) == Readings(init);
      }
    } else {
      NoLatch(cfg, rule);
    }
  }

  lemma NoLatch(cfg: Config, rule: Rule)
    ensures !IsLatched(cfg, [], rule)
  {
  }

  /** A deficit or no_local_production alert of a product is open exactly when its history since the
      last reset says so: some reading completed a run of negative balances, the buildings have put
      the island under that rule from then on, and no run of calm readings completed since. */
  lemma DeficitIsLatch(cfg: Config, inputs: seq<Input>, key: AlertKey)
    requires Countable(cfg) && key.rule != ProductivityDrop
    ensures OpenAlert(StateAfter(cfg, inputs), key).Some? <==>
      exists i :: Latched(cfg, Readings(History(inputs, key.island, key.guid)), key.rule, i)
  {
    StateIsHistory(cfg, inputs, key.island, key.guid);
    ProductLatch(cfg, key.island, key.guid, History(inputs, key.island, key.guid), key.rule);
  }
}
