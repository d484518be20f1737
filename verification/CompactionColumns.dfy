/** What a compaction writes into the columns of a bucket, told by the columns of the rows that went into it. */
module CompactionColumns {
  import opened Model
  import opened Compaction

  // --- the columns ---

  function Generation(r: Rates): real { r.generation }
  function Consumption(r: Rates): real { r.consumption }
  function Delta(r: Rates): real { r.delta }
  function PerfectGeneration(r: Rates): real { r.perfectGeneration }
  function PerfectConsumption(r: Rates): real { r.perfectConsumption }
  function Productivity(r: Rates): real { r.productivity }
  function BuildingsOf(r: Row): int { r.buildings }
  function GameTsOf(r: Row): int { r.gameTs }
  function MostBuildings(b: Bucket): int { b.buildings }
  function LastGameTs(b: Bucket): int { b.gameTsMax }

  /** The sum of one rate over the rows with these keys. */
  ghost function SumOf(keys: set<RowKey>, sample: map<RowKey, Row>, rate: Rates -> real): real {
    if keys == {} then 0.0
    else
      var k :| k in keys;
      SumOf(keys - {k}, sample, rate) + if k in sample then rate(sample[k].rates) else 0.0
  }

  /** Integer division rounds toward zero: after the epoch a window reaches forward from its start, before it back. */
  predicate InWindow(ts: int, start: int, w: int)
    requires w > 0
  {
    start % w == 0 && if ts >= 0 then start <= ts < start + w else start - w < ts <= start
  }

  /** The rows of a bucket's island and product that are old enough and lie in its window. */
  ghost function Feeding(sample: map<RowKey, Row>, cutoff: int, w: int, b: RowKey): set<RowKey>
    requires w > 0
  {
    set k | k in sample && k.ts < cutoff && k.island == b.island && k.guid == b.guid && InWindow(k.ts, b.ts, w)
  }

  /** The sum of a rate over everything that went into a bucket: the rows, and what the bucket stood for before. */
  ghost function Gathered(rows: set<RowKey>, t: Tables, b: RowKey, rate: Rates -> real): real {
    SumOf(rows, t.sample, rate) + if b in t.buckets then rate(t.buckets[b].means) * t.buckets[b].count as real else 0.0
  }

  /** This is the largest of the rows' and, if there was one, the earlier bucket's values. */
  ghost predicate Largest(value: int, rows: set<RowKey>, t: Tables, b: RowKey, column: Row -> int, before: Bucket -> int) {
    && (forall k :: k in rows && k in t.sample ==> column(t.sample[k]) <= value)
    && (b in t.buckets ==> before(t.buckets[b]) <= value)
    && ((b in t.buckets && before(t.buckets[b]) == value)
        || exists k :: k in rows && k in t.sample && column(t.sample[k]) == value)
  }

  /** Each mean times the number of measurements is the sum of its rate. */
  ghost predicate HoldsSums(after: Bucket, t: Tables, rows: set<RowKey>, b: RowKey) {
    var n := after.count as real;
    && after.means.generation * n == Gathered(rows, t, b, Generation)
    && after.means.consumption * n == Gathered(rows, t, b, Consumption)
    && after.means.delta * n == Gathered(rows, t, b, Delta)
    && after.means.perfectGeneration * n == Gathered(rows, t, b, PerfectGeneration)
    && after.means.perfectConsumption * n == Gathered(rows, t, b, PerfectConsumption)
    && after.means.productivity * n == Gathered(rows, t, b, Productivity)
  }

  /** A bucket after a compaction: the number of all measurements, means that multiply to the sums, and maxima. */
  ghost predicate HoldsColumns(after: Bucket, t: Tables, rows: set<RowKey>, w: int, b: RowKey) {
    && after.count == |rows| + (if b in t.buckets then t.buckets[b].count else 0)
    && HoldsSums(after, t, rows, b)
    && Largest(after.buildings, rows, t, b, BuildingsOf, MostBuildings)
    && Largest(after.gameTsMax, rows, t, b, GameTsOf, LastGameTs)
    && after.width == (if b !in t.buckets then w
                       else if rows != {} && w > t.buckets[b].width then w else t.buckets[b].width)
  }

  /** The tables after a compaction, column by column. */
  ghost predicate FillsColumns(t: Tables, after: Tables, rawCutoff: int, bucketCutoff: int, w: int)
    requires w > 0
  {
    && (forall k :: k in after.sample <==> k in t.sample && k.ts >= rawCutoff)
    && (forall k :: k in after.sample ==> after.sample[k] == t.sample[k])
    && (forall b :: b in after.buckets <==>
          b.ts >= bucketCutoff && (b in t.buckets || Feeding(t.sample, rawCutoff, w, b) != {}))
    && (forall b :: b in after.buckets ==>
          HoldsColumns(after.buckets[b], t, Feeding(t.sample, rawCutoff, w, b), w, b))
  }

  // --- sums ---

  lemma {:induction false} SumTake(keys: set<RowKey>, sample: map<RowKey, Row>, rate: Rates -> real, x: RowKey)
    requires x in keys
    ensures SumOf(keys, sample, rate) == SumOf(keys - {x}, sample, rate) + if x in sample then rate(sample[x].rates) else 0.0
    decreases keys
  {
    var k :| k in keys
      && SumOf(keys, sample, rate) == SumOf(keys - {k}, sample, rate) + if k in sample then rate(sample[k].rates) else 0.0;
    if k != x {
      SumTake(keys - {k}, sample, rate, x);
      SumTake(keys - {x}, sample, rate, k);
      assert keys - {k} - {x} == keys - {x} - {k};
    }
  }

  /** A selector adds up: on a sum it is the sum. */
  ghost predicate Additive(rate: Rates -> real) {
    forall a: Rates, b: Rates :: rate(a.Plus(b)) == rate(a) + rate(b)
  }

  lemma MergedRate(total: Option<Total>, one: Total, rate: Rates -> real)
    requires Additive(rate)
    ensures Merge(total, Some(one)).Some?
    ensures rate(Merge(total, Some(one)).value.sums) == (if total.Some? then rate(total.value.sums) else 0.0) + rate(one.sums)
  {
    if total.Some? {
      assert rate(total.value.sums.Plus(one.sums)) == rate(total.value.sums) + rate(one.sums);
    }
  }

  lemma {:induction false} GatherSums(keys: set<RowKey>, sample: map<RowKey, Row>, rate: Rates -> real)
    requires keys <= sample.Keys && Additive(rate)
    ensures var total := Gather(keys, RawTotals(sample));
      && (total.Some? <==> keys != {})
      && (if total.Some? then rate(total.value.sums) else 0.0) == SumOf(keys, sample, rate)
    decreases keys
  {
    if keys != {} {
      var k :| k in keys;
      GatherTake(keys, RawTotals(sample), k);
      SumTake(keys, sample, rate, k);
      GatherSums(keys - {k}, sample, rate);
      MergedRate(Gather(keys - {k}, RawTotals(sample)), RawTotal(sample[k]), rate);
      hide Merge, Gather, SumOf;
    }
  }

  /** A value that is the largest among these. */
  ghost predicate MaximumOf(value: int, keys: set<RowKey>, sample: map<RowKey, Row>, column: Row -> int)
    requires keys <= sample.Keys
  {
    (forall k :: k in keys ==> column(sample[k]) <= value) && exists k :: k in keys && column(sample[k]) == value
  }

  lemma MaximumGrows(keys: set<RowKey>, sample: map<RowKey, Row>, column: Row -> int, x: RowKey, before: int, value: int)
    requires x in keys && keys <= sample.Keys
    requires keys - {x} == {} ==> value == column(sample[x])
    requires keys - {x} != {} ==>
      MaximumOf(before, keys - {x}, sample, column) && value == if before >= column(sample[x]) then before else column(sample[x])
    ensures MaximumOf(value, keys, sample, column)
  {
    if keys - {x} == {} {
      assert keys == {x};
    } else {
      var k :| k in keys - {x} && column(sample[k]) == before;
      assert forall j :: j in keys ==> j == x || j in keys - {x};
      assert k in keys;
    }
  }

  lemma {:induction false} GatherCounts(keys: set<RowKey>, sample: map<RowKey, Row>)
    requires keys <= sample.Keys && keys != {}
    ensures var total := Gather(keys, RawTotals(sample));
      && total.Some? && total.value.count == |keys|
      && MaximumOf(total.value.buildings, keys, sample, BuildingsOf)
      && MaximumOf(total.value.gameTs, keys, sample, GameTsOf)
    decreases keys
  {
    var k :| k in keys;
    var rest := Gather(keys - {k}, RawTotals(sample));
    GatherTake(keys, RawTotals(sample), k);
    assert |keys| == |keys - {k}| + 1;
    if keys - {k} == {} {
      assert rest == None;
      MaximumGrows(keys, sample, BuildingsOf, k, 0, sample[k].buildings);
      MaximumGrows(keys, sample, GameTsOf, k, 0, sample[k].gameTs);
    } else {
      GatherCounts(keys - {k}, sample);
      hide Gather, MaximumOf;
      var total := Merge(rest, Some(RawTotal(sample[k]))).value;
      MaximumGrows(keys, sample, BuildingsOf, k, rest.value.buildings, total.buildings);
      MaximumGrows(keys, sample, GameTsOf, k, rest.value.gameTs, total.gameTs);
    }
  }

  // --- windows ---

  lemma TruncatedIff(ts: int, start: int, w: int)
    requires w > 0
    ensures Truncated(ts, w) == start <==> InWindow(ts, start, w)
  {
    if ts >= 0 {
      WindowIff(ts, start, w);
    } else {
      WindowIff(-ts, -start, w);
      assert (-start) % w == 0 <==> start % w == 0 by { Opposite(start, w); }
    }
  }

  lemma Opposite(x: int, w: int)
    requires w > 0
    ensures (-x) % w == 0 <==> x % w == 0
  {
    if x % w == 0 { Multiple(-x, -(x / w), w); }
    if (-x) % w == 0 { Multiple(x, -((-x) / w), w); }
  }

  lemma Multiple(x: int, q: int, w: int)
    requires w > 0 && x == q * w
    ensures x % w == 0 && x / w == q
  {
    assert (q - x / w) * w == x % w;
    WholeSteps(q - x / w, w);
  }

  lemma WindowIff(ts: int, start: int, w: int)
    requires w > 0 && ts >= 0
    ensures ts / w * w == start <==> start % w == 0 && start <= ts < start + w
  {
    Multiple(ts / w * w, ts / w, w);
    if start % w == 0 && start <= ts < start + w {
      assert start == start / w * w;
      assert (ts / w - start / w) * w == ts - ts % w - start;
      WholeSteps(ts / w - start / w, w);
    }
  }

  lemma FeedingIsGroup(sample: map<RowKey, Row>, cutoff: int, w: int, b: RowKey)
    requires w > 0
    ensures Feeding(sample, cutoff, w, b) == Group(sample, cutoff, w, b)
  {
    forall k | k in sample ensures BucketKey(k, w) == b <==> k.island == b.island && k.guid == b.guid && InWindow(k.ts, b.ts, w) {
      TruncatedIff(k.ts, b.ts, w);
    }
    hide Truncated, InWindow;
  }

  // --- what is folded ---

  ghost predicate Scales(rate: Rates -> real) {
    forall r: Rates, n: real :: rate(r.Times(n)) == rate(r) * n
  }

  lemma BucketRate(b: Bucket, rate: Rates -> real)
    requires Scales(rate)
    ensures rate(BucketTotal(b).sums) == rate(b.means) * b.count as real
  {
    assert rate(b.means.Times(b.count as real)) == rate(b.means) * b.count as real;
  }

  lemma RateFolds(t: Tables, rows: set<RowKey>, after: Bucket, b: RowKey, rate: Rates -> real)
    requires rows <= t.sample.Keys && Additive(rate) && Scales(rate)
    requires Merge(TotalAt(BucketTotals(t.buckets), b), Gather(rows, RawTotals(t.sample))) == Some(BucketTotal(after))
    ensures rate(after.means) * after.count as real == Gathered(rows, t, b, rate)
  {
    hide Gather, SumOf, BucketTotal, BucketTotals, RawTotals, TotalAt, Scales, Additive;
    GatherSums(rows, t.sample, rate);
    BucketRate(after, rate);
    var total := Gather(rows, RawTotals(t.sample));
    if b in t.buckets {
      BucketRate(t.buckets[b], rate);
      TotalThere(t.buckets, b);
      if total.Some? {
        MergedRate(Some(BucketTotal(t.buckets[b])), total.value, rate);
      }
    } else {
      TotalMissing(t.buckets, b);
    }
  }

  lemma TotalMissing(buckets: map<RowKey, Bucket>, b: RowKey)
    requires b !in buckets
    ensures TotalAt(BucketTotals(buckets), b) == None
  {
  }

  lemma RatesFold(t: Tables, rows: set<RowKey>, after: Bucket, b: RowKey)
    requires rows <= t.sample.Keys
    requires Merge(TotalAt(BucketTotals(t.buckets), b), Gather(rows, RawTotals(t.sample))) == Some(BucketTotal(after))
    ensures HoldsSums(after, t, rows, b)
  {
    hide Gather, Gathered, Merge, TotalAt;
    RateFolds(t, rows, after, b, Generation);
    RateFolds(t, rows, after, b, Consumption);
    RateFolds(t, rows, after, b, Delta);
    RateFolds(t, rows, after, b, PerfectGeneration);
    RateFolds(t, rows, after, b, PerfectConsumption);
    RateFolds(t, rows, after, b, Productivity);
  }

  lemma CountsFold(t: Tables, rows: set<RowKey>, after: Bucket, b: RowKey)
    requires rows <= t.sample.Keys
    requires Merge(TotalAt(BucketTotals(t.buckets), b), Gather(rows, RawTotals(t.sample))) == Some(BucketTotal(after))
    ensures after.count == |rows| + (if b in t.buckets then t.buckets[b].count else 0)
    ensures Largest(after.buildings, rows, t, b, BuildingsOf, MostBuildings)
    ensures Largest(after.gameTsMax, rows, t, b, GameTsOf, LastGameTs)
  {
    if rows != {} {
      GatherCounts(rows, t.sample);
    }
    GatherSome(rows, RawTotals(t.sample));
    hide Gather;
  }

  lemma TotalThere(buckets: map<RowKey, Bucket>, b: RowKey)
    requires b in buckets
    ensures TotalAt(BucketTotals(buckets), b) == Some(BucketTotal(buckets[b]))
  {
  }

  lemma BucketIsFilled(t: Tables, after: Tables, rawCutoff: int, bucketCutoff: int, w: int, b: RowKey)
    requires w > 0 && Folds(t, rawCutoff, bucketCutoff, w, after) && b in after.buckets && b.ts >= bucketCutoff
    ensures HoldsColumns(after.buckets[b], t, Feeding(t.sample, rawCutoff, w, b), w, b)
  {
    var rows := Feeding(t.sample, rawCutoff, w, b);
    assert rows <= t.sample.Keys;
    FeedingIsGroup(t.sample, rawCutoff, w, b);
    TotalThere(after.buckets, b);
    hide Folds, Feeding, Group, Gather, Merge, HoldsSums, Largest, TotalAt, BucketTotals, BucketTotal, RawTotals;
    MidBucket(t, after, rawCutoff, bucketCutoff, w, b);
    RatesFold(t, rows, after.buckets[b], b);
    CountsFold(t, rows, after.buckets[b], b);
  }

  lemma BucketIsThere(t: Tables, after: Tables, rawCutoff: int, bucketCutoff: int, w: int, b: RowKey)
    requires w > 0 && Folds(t, rawCutoff, bucketCutoff, w, after)
    ensures b in after.buckets <==> b.ts >= bucketCutoff && (b in t.buckets || Feeding(t.sample, rawCutoff, w, b) != {})
  {
    FeedingIsGroup(t.sample, rawCutoff, w, b);
    if b.ts >= bucketCutoff {
      MidBucket(t, after, rawCutoff, bucketCutoff, w, b);
    }
    hide FoldedBucket, Group, Feeding;
  }

  /** A compaction fills the columns: of a bucket's rows and of what it stood for before, the count is the number, each
      mean times the count is the sum, and buildings and game time are the largest. */
  lemma FoldsFillColumns(t: Tables, after: Tables, rawCutoff: int, bucketCutoff: int, w: int)
    requires w > 0 && Folds(t, rawCutoff, bucketCutoff, w, after)
    ensures FillsColumns(t, after, rawCutoff, bucketCutoff, w)
  {
    hide FoldedBucket, HoldsColumns, Feeding;
    forall b: RowKey
      ensures b in after.buckets <==> b.ts >= bucketCutoff && (b in t.buckets || Feeding(t.sample, rawCutoff, w, b) != {})
      ensures b in after.buckets ==> HoldsColumns(after.buckets[b], t, Feeding(t.sample, rawCutoff, w, b), w, b)
    {
      BucketIsThere(t, after, rawCutoff, bucketCutoff, w, b);
      if b in after.buckets {
        BucketIsFilled(t, after, rawCutoff, bucketCutoff, w, b);
      }
    }
  }
}
