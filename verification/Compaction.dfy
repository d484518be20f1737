/** Compaction of the history: raw samples fold into buckets of weighted means, old rows are deleted. */
module Compaction {
  import opened Model

  /** A row of either table is identified by its island's row id, its product and its time in milliseconds. */
  datatype RowKey = RowKey(island: RowId, guid: int32, ts: int)

  datatype Rates = Rates(
    generation: real, consumption: real, delta: real,
    perfectGeneration: real, perfectConsumption: real, productivity: real)
  {
    function Plus(r: Rates): Rates {
      Rates(generation + r.generation, consumption + r.consumption, delta + r.delta,
            perfectGeneration + r.perfectGeneration, perfectConsumption + r.perfectConsumption,
            productivity + r.productivity)
    }

    function Times(n: real): Rates {
      Rates(generation * n, consumption * n, delta * n, perfectGeneration * n, perfectConsumption * n, productivity * n)
    }

    function Over(n: real): Rates
      requires n != 0.0
    {
      Rates(generation / n, consumption / n, delta / n, perfectGeneration / n, perfectConsumption / n, productivity / n)
    }
  }

  datatype Row = Row(rates: Rates, buildings: int, gameTs: int)

  type Count = n: int | n >= 1 witness 1

  datatype Bucket = Bucket(means: Rates, buildings: int, count: Count, width: int, gameTsMax: int)

  datatype Tables = Tables(sample: map<RowKey, Row>, buckets: map<RowKey, Bucket>)

  // --- what a set of rows amounts to ---

  /** Sums, count and maxima of some measurements. */
  datatype Total = Total(sums: Rates, count: Count, buildings: int, gameTs: int)

  function Max(a: int, b: int): int { if a >= b then a else b }

  function Merge(a: Option<Total>, b: Option<Total>): Option<Total> {
    match (a, b)
    case (None, _) => b
    case (_, None) => a
    case (Some(x), Some(y)) =>
      Some(Total(x.sums.Plus(y.sums), x.count + y.count, Max(x.buildings, y.buildings), Max(x.gameTs, y.gameTs)))
  }

  function RawTotal(r: Row): Total { Total(r.rates, 1, r.buildings, r.gameTs) }

  function BucketTotal(b: Bucket): Total { Total(b.means.Times(b.count as real), b.count, b.buildings, b.gameTsMax) }

  function RawTotals(sample: map<RowKey, Row>): map<RowKey, Total> { map k | k in sample :: RawTotal(sample[k]) }

  function BucketTotals(buckets: map<RowKey, Bucket>): map<RowKey, Total> { map k | k in buckets :: BucketTotal(buckets[k]) }

  function TotalAt(totals: map<RowKey, Total>, k: RowKey): Option<Total> {
    if k in totals then Some(totals[k]) else None
  }

  /** The total of the rows with these keys. */
  ghost function Gather(keys: set<RowKey>, totals: map<RowKey, Total>): Option<Total> {
    if keys == {} then None
    else var k :| k in keys; Merge(Gather(keys - {k}, totals), TotalAt(totals, k))
  }

  lemma MergeLaws(a: Option<Total>, b: Option<Total>, c: Option<Total>)
    ensures Merge(a, b) == Merge(b, a)
    ensures Merge(Merge(a, b), c) == Merge(a, Merge(b, c))
  {
  }

  lemma MergeSwap(a: Option<Total>, b: Option<Total>, c: Option<Total>)
    ensures Merge(Merge(a, b), c) == Merge(Merge(a, c), b)
  {
  }

  lemma MergePairs(a: Option<Total>, b: Option<Total>, c: Option<Total>, d: Option<Total>)
    ensures Merge(Merge(a, b), Merge(c, d)) == Merge(Merge(a, c), Merge(b, d))
  {
    hide Merge;
    MergeLaws(a, b, Merge(c, d));
    MergeLaws(b, c, d);
    MergeLaws(c, b, d);
    MergeLaws(a, c, Merge(b, d));
  }

  /** The order in which rows are added up does not matter: any one can be taken out last. */
  lemma {:induction false} GatherTake(keys: set<RowKey>, totals: map<RowKey, Total>, x: RowKey)
    requires x in keys
    ensures Gather(keys, totals) == Merge(Gather(keys - {x}, totals), TotalAt(totals, x))
    decreases keys
  {
    hide Merge, TotalAt;
    var k :| k in keys && Gather(keys, totals) == Merge(Gather(keys - {k}, totals), TotalAt(totals, k));
    if k != x {
      GatherTake(keys - {k}, totals, x);
      GatherTake(keys - {x}, totals, k);
      assert keys - {k} - {x} == keys - {x} - {k};
      MergeSwap(Gather(keys - {k} - {x}, totals), TotalAt(totals, x), TotalAt(totals, k));
    }
  }

  lemma {:induction false} GatherUnion(a: set<RowKey>, b: set<RowKey>, totals: map<RowKey, Total>)
    requires a !! b
    ensures Gather(a + b, totals) == Merge(Gather(a, totals), Gather(b, totals))
    decreases b
  {
    if b == {} {
      assert a + b == a;
    } else {
      hide Merge, TotalAt;
      var k :| k in b;
      GatherTake(b, totals, k);
      GatherTake(a + b, totals, k);
      assert a + b - {k} == a + (b - {k});
      GatherUnion(a, b - {k}, totals);
      MergeLaws(Gather(a, totals), Gather(b - {k}, totals), TotalAt(totals, k));
    }
  }

  lemma {:induction false} GatherSame(keys: set<RowKey>, a: map<RowKey, Total>, b: map<RowKey, Total>)
    requires forall k :: k in keys ==> TotalAt(a, k) == TotalAt(b, k)
    ensures Gather(keys, a) == Gather(keys, b)
  {
    if keys != {} {
      hide Merge, TotalAt;
      var k :| k in keys && Gather(keys, a) == Merge(Gather(keys - {k}, a), TotalAt(a, k));
      GatherTake(keys, b, k);
      GatherSame(keys - {k}, a, b);
    }
  }

  // --- the compaction ---

  /** SQL's (ts / w) * w: integer division truncates toward zero. */
  function Truncated(ts: int, w: int): int
    requires w > 0
  {
    if ts >= 0 then ts / w * w else -(-ts / w * w)
  }

  function BucketKey(k: RowKey, w: int): RowKey
    requires w > 0
  {
    k.(ts := Truncated(k.ts, w))
  }

  function Older(sample: map<RowKey, Row>, cutoff: int): set<RowKey> {
    set k | k in sample && k.ts < cutoff
  }

  function Group(sample: map<RowKey, Row>, cutoff: int, w: int, bucket: RowKey): set<RowKey>
    requires w > 0
  {
    set k | k in sample && k.ts < cutoff && BucketKey(k, w) == bucket
  }

  function Groups(sample: map<RowKey, Row>, cutoff: int, w: int): set<RowKey>
    requires w > 0
  {
    set k | k in sample && k.ts < cutoff :: BucketKey(k, w)
  }

  ghost function FoldedTotal(t: Tables, cutoff: int, w: int, k: RowKey): Option<Total>
    requires w > 0
  {
    Merge(TotalAt(BucketTotals(t.buckets), k), Gather(Group(t.sample, cutoff, w, k), RawTotals(t.sample)))
  }

  /** A bucket's width only ever grows. */
  function FoldedWidth(t: Tables, cutoff: int, w: int, k: RowKey): int
    requires w > 0
  {
    if k !in t.buckets then w
    else if Group(t.sample, cutoff, w, k) == {} then t.buckets[k].width
    else Max(t.buckets[k].width, w)
  }

  function BucketOf(total: Total, width: int): Bucket {
    Bucket(total.sums.Over(total.count as real), total.buildings, total.count, width, total.gameTs)
  }

  ghost function FoldedBucket(t: Tables, cutoff: int, w: int, k: RowKey): Option<Bucket>
    requires w > 0
  {
    match FoldedTotal(t, cutoff, w, k)
    case None => None
    case Some(total) => Some(BucketOf(total, FoldedWidth(t, cutoff, w, k)))
  }

  /** What one compaction leaves: every raw row below the raw cutoff is part of its bucket, whose means are those
      of everything that ever went into it, and buckets below the bucket cutoff are gone. */
  ghost predicate Folds(t: Tables, rawCutoff: int, bucketCutoff: int, w: int, after: Tables)
    requires w > 0
  {
    && after.sample == (map k | k in t.sample && k.ts >= rawCutoff :: t.sample[k])
    && forall k: RowKey ::
         (if k in after.buckets then Some(after.buckets[k]) else None)
         == if k.ts < bucketCutoff then None else FoldedBucket(t, rawCutoff, w, k)
  }

  // --- means and totals determine each other ---

  lemma DivideBack(x: real, n: real)
    requires n != 0.0
    ensures x / n * n == x
  {
  }

  lemma MultiplyBack(x: real, product: real, n: real)
    requires n != 0.0 && product == x * n
    ensures product / n == x
  {
  }

  lemma OverTimes(r: Rates, n: real)
    requires n != 0.0
    ensures r.Over(n).Times(n) == r
  {
    DivideBack(r.generation, n);
    DivideBack(r.consumption, n);
    DivideBack(r.delta, n);
    DivideBack(r.perfectGeneration, n);
    DivideBack(r.perfectConsumption, n);
    DivideBack(r.productivity, n);
  }

  lemma TimesOver(r: Rates, n: real)
    requires n != 0.0
    ensures r.Times(n).Over(n) == r
  {
    var product := r.Times(n);
    MultiplyBack(r.generation, product.generation, n);
    MultiplyBack(r.consumption, product.consumption, n);
    MultiplyBack(r.delta, product.delta, n);
    MultiplyBack(r.perfectGeneration, product.perfectGeneration, n);
    MultiplyBack(r.perfectConsumption, product.perfectConsumption, n);
    MultiplyBack(r.productivity, product.productivity, n);
  }

  lemma BucketTotalBack(total: Total, width: int)
    ensures BucketTotal(BucketOf(total, width)) == total
  {
    OverTimes(total.sums, total.count as real);
  }

  lemma BucketBack(b: Bucket)
    ensures BucketOf(BucketTotal(b), b.width) == b
  {
    TimesOver(b.means, b.count as real);
  }

  lemma {:induction false} GatherSome(keys: set<RowKey>, totals: map<RowKey, Total>)
    requires keys <= totals.Keys
    ensures Gather(keys, totals).None? <==> keys == {}
  {
    if keys != {} {
      var k :| k in keys && Gather(keys, totals) == Merge(Gather(keys - {k}, totals), TotalAt(totals, k));
      GatherSome(keys - {k}, totals);
    }
  }

  /** Tables are determined by what compaction promises of them. */
  lemma FoldsUnique(t: Tables, rawCutoff: int, bucketCutoff: int, w: int, a: Tables, b: Tables)
    requires w > 0 && Folds(t, rawCutoff, bucketCutoff, w, a) && Folds(t, rawCutoff, bucketCutoff, w, b)
    ensures a == b
  {
    hide FoldedBucket;
    forall k: RowKey ensures k in a.buckets <==> k in b.buckets
      ensures k in a.buckets ==> a.buckets[k] == b.buckets[k]
    {
      assert (if k in a.buckets then Some(a.buckets[k]) else None) == (if k in b.buckets then Some(b.buckets[k]) else None);
    }
    assert a.buckets.Keys == b.buckets.Keys;
    assert a.buckets == b.buckets;
  }

  // --- folding in two steps is folding once ---

  lemma LaterGroup(t: Tables, mid: Tables, earlier: int, later: int, w: int, k: RowKey)
    requires w > 0 && earlier <= later
    requires mid.sample == (map k | k in t.sample && k.ts >= earlier :: t.sample[k])
    ensures Gather(Group(t.sample, later, w, k), RawTotals(t.sample))
         == Merge(Gather(Group(t.sample, earlier, w, k), RawTotals(t.sample)),
                  Gather(Group(mid.sample, later, w, k), RawTotals(mid.sample)))
    ensures Group(t.sample, later, w, k) == Group(t.sample, earlier, w, k) + Group(mid.sample, later, w, k)
  {
    hide Merge, Gather, BucketKey;
    var first, rest := Group(t.sample, earlier, w, k), Group(mid.sample, later, w, k);
    assert Group(t.sample, later, w, k) == first + rest;
    GatherUnion(first, rest, RawTotals(t.sample));
    GatherSame(rest, RawTotals(t.sample), RawTotals(mid.sample));
  }

  lemma FoldedTwice(t: Tables, mid: Tables, earlier: int, later: int, bucketCutoff: int, w: int, k: RowKey)
    requires w > 0 && earlier <= later && bucketCutoff <= k.ts
    requires Folds(t, earlier, bucketCutoff, w, mid)
    ensures FoldedTotal(mid, later, w, k) == FoldedTotal(t, later, w, k)
    ensures FoldedTotal(t, later, w, k).Some? ==> FoldedWidth(mid, later, w, k) == FoldedWidth(t, later, w, k)
  {
    var raw := Group(t.sample, earlier, w, k);
    LaterGroup(t, mid, earlier, later, w, k);
    GatherSome(raw, RawTotals(t.sample));
    GatherSome(Group(t.sample, later, w, k), RawTotals(t.sample));
    hide Gather, Group;
    MidBucket(t, mid, earlier, bucketCutoff, w, k);
    MergeLaws(TotalAt(BucketTotals(t.buckets), k), Gather(raw, RawTotals(t.sample)),
              Gather(Group(mid.sample, later, w, k), RawTotals(mid.sample)));
    hide Merge;
  }

  lemma MidBucket(t: Tables, mid: Tables, cutoff: int, bucketCutoff: int, w: int, k: RowKey)
    requires w > 0 && bucketCutoff <= k.ts && Folds(t, cutoff, bucketCutoff, w, mid)
    ensures TotalAt(BucketTotals(mid.buckets), k) == FoldedTotal(t, cutoff, w, k)
    ensures k in mid.buckets ==> mid.buckets[k].width == FoldedWidth(t, cutoff, w, k)
    ensures k in mid.buckets <==> k in t.buckets || Group(t.sample, cutoff, w, k) != {}
  {
    GatherSome(Group(t.sample, cutoff, w, k), RawTotals(t.sample));
    hide Gather, Group, BucketTotal, BucketOf;
    var total := FoldedTotal(t, cutoff, w, k);
    if total.Some? {
      BucketTotalBack(total.value, FoldedWidth(t, cutoff, w, k));
    }
  }

  lemma SameBucket(t: Tables, mid: Tables, raw1: int, raw2: int, bucket1: int, w: int, k: RowKey)
    requires w > 0 && raw1 <= raw2 && bucket1 <= k.ts && Folds(t, raw1, bucket1, w, mid)
    ensures FoldedBucket(mid, raw2, w, k) == FoldedBucket(t, raw2, w, k)
  {
    hide Folds, FoldedTotal, FoldedWidth;
    FoldedTwice(t, mid, raw1, raw2, bucket1, w, k);
  }

  /** Compacting at one time and again at a later one leaves the tables that compacting at the later time
      alone leaves. */
  lemma FoldsCompose(t: Tables, mid: Tables, after: Tables, raw1: int, bucket1: int, raw2: int, bucket2: int, w: int)
    requires w > 0 && raw1 <= raw2 && bucket1 <= bucket2
    requires Folds(t, raw1, bucket1, w, mid)
    ensures Folds(mid, raw2, bucket2, w, after) <==> Folds(t, raw2, bucket2, w, after)
  {
    hide FoldedBucket;
    assert (map k | k in mid.sample && k.ts >= raw2 :: mid.sample[k]) == (map k | k in t.sample && k.ts >= raw2 :: t.sample[k]);
    forall k: RowKey | k.ts >= bucket2
      ensures FoldedBucket(mid, raw2, w, k) == FoldedBucket(t, raw2, w, k)
    {
      SameBucket(t, mid, raw1, raw2, bucket1, w, k);
    }
  }

  /** The tables a compaction leaves always exist. */
  lemma FoldExists(t: Tables, cutoff: int, bucketCutoff: int, w: int) returns (after: Tables)
    requires w > 0
    ensures Folds(t, cutoff, bucketCutoff, w, after)
  {
    hide FoldedTotal, FoldedWidth, BucketOf;
    after := Tables(map k | k in t.sample && k.ts >= cutoff :: t.sample[k],
                    map k | k in t.buckets.Keys + Groups(t.sample, cutoff, w) && k.ts >= bucketCutoff
                            && FoldedBucket(t, cutoff, w, k).Some? :: FoldedBucket(t, cutoff, w, k).value);
    forall k: RowKey | k !in t.buckets.Keys + Groups(t.sample, cutoff, w)
      ensures FoldedBucket(t, cutoff, w, k) == None
    {
      assert Group(t.sample, cutoff, w, k) == {} by { hide BucketKey; }
      UntouchedBucket(t, cutoff, w, k);
    }
  }

  // --- what the history query sees is conserved ---

  ghost predicate Selected(k: RowKey, island: RowId, guid: int32, from: int, to: int) {
    k.island == island && k.guid == guid && from <= k.ts <= to
  }

  ghost function Selection(keys: set<RowKey>, island: RowId, guid: int32, from: int, to: int): set<RowKey> {
    set k | k in keys && Selected(k, island, guid, from, to)
  }

  /** Everything the history query returns for one product and range (both ends included), added up: a bucket
      counts as the measurements it stands for. */
  ghost function HistoryTotal(t: Tables, island: RowId, guid: int32, from: int, to: int): Option<Total> {
    Merge(Gather(Selection(t.buckets.Keys, island, guid, from, to), BucketTotals(t.buckets)),
          Gather(Selection(t.sample.Keys, island, guid, from, to), RawTotals(t.sample)))
  }

  ghost function BucketsTotal(t: Tables, keys: set<RowKey>): Option<Total> {
    Gather(keys * t.buckets.Keys, BucketTotals(t.buckets))
  }

  lemma {:induction false} BucketsTake(t: Tables, keys: set<RowKey>, k: RowKey)
    requires k in keys
    ensures BucketsTotal(t, keys) == Merge(BucketsTotal(t, keys - {k}), TotalAt(BucketTotals(t.buckets), k))
  {
    hide BucketTotals;
    if k in t.buckets {
      GatherTake(keys * t.buckets.Keys, BucketTotals(t.buckets), k);
      assert keys * t.buckets.Keys - {k} == (keys - {k}) * t.buckets.Keys;
    } else {
      assert keys * t.buckets.Keys == (keys - {k}) * t.buckets.Keys;
      NoTotal(t.buckets, k);
    }
  }

  lemma NoTotal(buckets: map<RowKey, Bucket>, k: RowKey)
    requires k !in buckets
    ensures TotalAt(BucketTotals(buckets), k) == None
  {
  }

  /** The raw rows below the cutoff whose bucket is one of these. */
  ghost function FoldedInto(sample: map<RowKey, Row>, cutoff: int, w: int, keys: set<RowKey>): set<RowKey>
    requires w > 0
  {
    set k | k in sample && k.ts < cutoff && BucketKey(k, w) in keys
  }

  /** Folding moves measurements from the raw table into the buckets, and loses none. */
  lemma {:induction false} BucketsGain(t: Tables, after: Tables, cutoff: int, bucketCutoff: int, w: int, keys: set<RowKey>)
    requires w > 0 && Folds(t, cutoff, bucketCutoff, w, after)
    requires forall k :: k in keys ==> k.ts >= bucketCutoff
    ensures BucketsTotal(after, keys)
         == Merge(BucketsTotal(t, keys), Gather(FoldedInto(t.sample, cutoff, w, keys), RawTotals(t.sample)))
    decreases keys
  {
    hide Folds, RawTotals, BucketTotals, BucketKey, Merge;
    if keys == {} {
      NothingGained(t, after, cutoff, w);
    } else {
      var k :| k in keys;
      var rest, group := FoldedInto(t.sample, cutoff, w, keys - {k}), Group(t.sample, cutoff, w, k);
      BucketsGain(t, after, cutoff, bucketCutoff, w, keys - {k});
      BucketsTake(t, keys, k);
      BucketsTake(after, keys, k);
      MidBucket(t, after, cutoff, bucketCutoff, w, k);
      assert FoldedInto(t.sample, cutoff, w, keys) == rest + group;
      GatherUnion(rest, group, RawTotals(t.sample));
      MergePairs(BucketsTotal(t, keys - {k}), Gather(rest, RawTotals(t.sample)),
                 TotalAt(BucketTotals(t.buckets), k), Gather(group, RawTotals(t.sample)));
    }
  }

  lemma NothingGained(t: Tables, after: Tables, cutoff: int, w: int)
    requires w > 0
    ensures BucketsTotal(after, {}) == None && BucketsTotal(t, {}) == None
    ensures Merge(None, Gather(FoldedInto(t.sample, cutoff, w, {}), RawTotals(t.sample))) == None
  {
    assert FoldedInto(t.sample, cutoff, w, {}) == {};
    assert {} * after.buckets.Keys == {} && {} * t.buckets.Keys == {};
  }

  /** A bucket starts in an aligned range that ends after the epoch exactly when the measurement lies in the range or,
      since truncation goes toward zero, less than a bucket before a start that is not after the epoch. */
  lemma AlignedRange(ts: int, w: int, from: int, to: int)
    requires w > 0 && from % w == 0 && to % w == 0 && to > 0
    ensures from <= Truncated(ts, w) <= to - 1
      <==> from <= ts <= to - 1 || (from <= 0 && from - w < ts < from)
  {
    if ts >= 0 {
      FromEpoch(ts / w, from / w, to / w, w, ts % w, ts, from, to);
    } else {
      BeforeEpoch(-ts / w, from / w, w, -ts % w, ts, from);
    }
  }

  /** A measurement q buckets and a rest after the epoch, and a range of whole buckets. */
  lemma FromEpoch(q: int, f: int, u: int, w: int, r: int, ts: int, from: int, to: int)
    requires 0 <= r < w && ts == q * w + r && from == f * w && to == u * w
    ensures from <= q * w <= to - 1 <==> from <= ts <= to - 1
  {
    Multiples(q, f, w, r);
    Multiples(q, u, w, r);
  }

  /** The same before the epoch. */
  lemma BeforeEpoch(q: int, f: int, w: int, r: int, ts: int, from: int)
    requires 0 <= r < w && -ts == q * w + r && from == f * w && q >= 0
    ensures from <= -(q * w) <==> from <= 0 && from - w < ts
  {
    Multiples(q, 1 - f, w, r);
    assert (1 - f) * w == w - from && (q + f) * w == q * w + from;
    WholeSteps(q + f, w);
    WholeSteps(q, w);
  }

  /** A whole number of steps is none, at least one forward or at least one back. */
  lemma WholeSteps(steps: int, w: int)
    requires w > 0
    ensures steps >= 1 ==> steps * w >= w
    ensures steps <= -1 ==> steps * w <= -w
  {
  }

  lemma Multiples(q: int, f: int, w: int, r: int)
    requires 0 <= r < w
    ensures q * w + r >= f * w <==> q * w >= f * w
  {
    WholeSteps(q - f, w);
    assert (q - f) * w == q * w - f * w;
  }

  /** A row that a compaction moves into a range it does not lie in: it is less than a bucket before the start. */
  predicate Shifts(k: RowKey, island: RowId, guid: int32, from: int, w: int, cutoff: int) {
    k.island == island && k.guid == guid && from - w < k.ts < from && k.ts < cutoff
  }

  /** No row of the product is moved into the range; none can be when the range starts after the epoch. */
  ghost predicate NoneShifts(t: Tables, island: RowId, guid: int32, from: int, w: int, cutoff: int) {
    from <= 0 ==> forall k :: k in t.sample ==> !Shifts(k, island, guid, from, w, cutoff)
  }

  /** What a compaction folds into the buckets of a range: the old rows of the range and those it shifts. */
  lemma FoldedRows(t: Tables, cutoff: int, w: int, island: RowId, guid: int32, from: int, to: int, starts: set<RowKey>,
                   gone: set<RowKey>, shifted: set<RowKey>)
    requires w > 0 && from % w == 0 && to % w == 0 && to > 0
    requires gone == set k | k in Selection(t.sample.Keys, island, guid, from, to - 1) && k.ts < cutoff
    requires shifted == set k | k in t.sample && from <= 0 && Shifts(k, island, guid, from, w, cutoff)
    requires forall b :: b in starts ==> Selected(b, island, guid, from, to - 1)
    requires forall b :: b in Groups(t.sample, cutoff, w) && Selected(b, island, guid, from, to - 1) ==> b in starts
    ensures FoldedInto(t.sample, cutoff, w, starts) == gone + shifted
  {
    forall k | k in t.sample
      ensures Selected(BucketKey(k, w), island, guid, from, to - 1)
        <==> Selected(k, island, guid, from, to - 1)
             || (from <= 0 && k.island == island && k.guid == guid && from - w < k.ts < from)
    {
      AlignedRange(k.ts, w, from, to);
    }
    hide Truncated;
  }

  ghost function BucketsWithin(t: Tables, island: RowId, guid: int32, from: int, to: int): Option<Total> {
    Gather(Selection(t.buckets.Keys, island, guid, from, to), BucketTotals(t.buckets))
  }

  /** The raw rows of a range that a compaction folds, and those it shifts into it. */
  ghost function Gone(sample: map<RowKey, Row>, island: RowId, guid: int32, from: int, to: int, cutoff: int): set<RowKey> {
    set k | k in Selection(sample.Keys, island, guid, from, to) && k.ts < cutoff
  }

  ghost function Shifted(sample: map<RowKey, Row>, island: RowId, guid: int32, from: int, w: int, cutoff: int): set<RowKey> {
    set k | k in sample && from <= 0 && Shifts(k, island, guid, from, w, cutoff)
  }

  /** What a compaction adds to the buckets of an aligned range is what it folds there. */
  lemma RangeGains(t: Tables, after: Tables, cutoff: int, bucketCutoff: int, w: int,
                   island: RowId, guid: int32, from: int, to: int)
    requires w > 0 && Folds(t, cutoff, bucketCutoff, w, after)
    requires from % w == 0 && to % w == 0 && to > 0 && bucketCutoff <= from
    ensures
      var gone, shifted := Gone(t.sample, island, guid, from, to - 1, cutoff), Shifted(t.sample, island, guid, from, w, cutoff);
      && BucketsWithin(after, island, guid, from, to - 1)
         == Merge(BucketsWithin(t, island, guid, from, to - 1),
                  Merge(Gather(gone, RawTotals(t.sample)), Gather(shifted, RawTotals(t.sample))))
      && (Gather(shifted, RawTotals(t.sample)) == None <==> NoneShifts(t, island, guid, from, w, cutoff))
  {
    var gone, shifted := Gone(t.sample, island, guid, from, to - 1, cutoff), Shifted(t.sample, island, guid, from, w, cutoff);
    var starts := Selection(t.buckets.Keys + after.buckets.Keys + Groups(t.sample, cutoff, w), island, guid, from, to - 1);
    assert NoneShifts(t, island, guid, from, w, cutoff) <==> shifted == {} by {
      assert forall k :: k in t.sample && from <= 0 && Shifts(k, island, guid, from, w, cutoff) ==> k in shifted;
    }
    FoldedRows(t, cutoff, w, island, guid, from, to, starts, gone, shifted);
    assert Selection(t.buckets.Keys, island, guid, from, to - 1) == starts * t.buckets.Keys;
    assert Selection(after.buckets.Keys, island, guid, from, to - 1) == starts * after.buckets.Keys;
    assert gone !! shifted;
    hide Selection, Groups, FoldedInto, NoneShifts, Gone, Shifted, Merge, Gather;
    BucketsGain(t, after, cutoff, bucketCutoff, w, starts);
    GatherUnion(gone, shifted, RawTotals(t.sample));
    GatherSome(shifted, RawTotals(t.sample)) by { ShiftedAreRows(t.sample, island, guid, from, w, cutoff); }
  }

  lemma ShiftedAreRows(sample: map<RowKey, Row>, island: RowId, guid: int32, from: int, w: int, cutoff: int)
    ensures Shifted(sample, island, guid, from, w, cutoff) <= RawTotals(sample).Keys
  {
  }

  /** Over any bucket-aligned range that starts at or after the bucket cutoff and ends after the epoch, a compaction
      leaves the sum of every rate (each bucket weighted by its count), the number of measurements and the maxima of
      buildings and game time as they were exactly when it shifts no row of the product into the range. */
  lemma FoldConservesIff(t: Tables, after: Tables, cutoff: int, bucketCutoff: int, w: int,
                         island: RowId, guid: int32, from: int, to: int)
    requires w > 0 && Folds(t, cutoff, bucketCutoff, w, after)
    requires from % w == 0 && to % w == 0 && to > 0 && bucketCutoff <= from
    ensures HistoryTotal(after, island, guid, from, to - 1) == HistoryTotal(t, island, guid, from, to - 1)
      <==> NoneShifts(t, island, guid, from, w, cutoff)
  {
    RangeGains(t, after, cutoff, bucketCutoff, w, island, guid, from, to);
    var gone, shifted := Gone(t.sample, island, guid, from, to - 1, cutoff), Shifted(t.sample, island, guid, from, w, cutoff);
    var kept := Selection(after.sample.Keys, island, guid, from, to - 1);
    assert Selection(t.sample.Keys, island, guid, from, to - 1) == gone + kept;
    assert gone !! kept && kept <= after.sample.Keys;
    hide NoneShifts, Selection, Gone, Shifted, Gather;
    GatherUnion(gone, kept, RawTotals(t.sample));
    GatherSame(kept, RawTotals(t.sample), RawTotals(after.sample)) by { KeptRows(t, after, cutoff, bucketCutoff, w, kept); }
    TotalsDiffer(BucketsWithin(t, island, guid, from, to - 1), Gather(gone, RawTotals(t.sample)),
                 Gather(shifted, RawTotals(t.sample)), Gather(kept, RawTotals(t.sample)));
    hide Merge;
  }

  lemma TotalsDiffer(buckets: Option<Total>, gone: Option<Total>, shifted: Option<Total>, kept: Option<Total>)
    ensures Merge(Merge(buckets, Merge(gone, shifted)), kept) == Merge(buckets, Merge(gone, kept)) <==> shifted == None
  {
  }

  lemma KeptRows(t: Tables, after: Tables, cutoff: int, bucketCutoff: int, w: int, kept: set<RowKey>)
    requires w > 0 && Folds(t, cutoff, bucketCutoff, w, after) && kept <= after.sample.Keys
    ensures forall k :: k in kept ==> TotalAt(RawTotals(t.sample), k) == TotalAt(RawTotals(after.sample), k)
  {
  }

  // --- the retention policy ---

  const MINUTE: int := 60_000 * MILLISECOND
  const DAY: int := 24 * 60 * MINUTE

  /** How long each resolution is kept, and the width of a bucket: durations in nanoseconds. */
  datatype Options = Options(rawRetention: int, bucketWidth: int, bucketRetention: int)

  const DEFAULT_OPTIONS := Options(7 * DAY, 10 * MINUTE, 90 * DAY)

  function Effective(o: Options): Options {
    Options(if o.rawRetention <= 0 then DEFAULT_OPTIONS.rawRetention else o.rawRetention,
            if o.bucketWidth <= 0 then DEFAULT_OPTIONS.bucketWidth else o.bucketWidth,
            if o.bucketRetention <= 0 then DEFAULT_OPTIONS.bucketRetention else o.bucketRetention)
  }

  function RawCutoff(o: Options, now: Time): int { Millis(now - Effective(o).rawRetention) }

  function BucketCutoff(o: Options, now: Time): int { Millis(now - Effective(o).bucketRetention) }

  function Width(o: Options): nat
    ensures Width(o) > 0 <==> o.bucketWidth <= 0 || o.bucketWidth >= MILLISECOND
  {
    Effective(o).bucketWidth / MILLISECOND
  }

  /** One compaction. With a width below a millisecond the bucket's time would be SQL's x / 0, which is NULL: the
      transaction then fails as soon as there is a row to fold, and changes nothing. */
  ghost predicate Compacts(t: Tables, o: Options, now: Time, after: Tables) {
    if Width(o) > 0 then Folds(t, RawCutoff(o, now), BucketCutoff(o, now), Width(o), after)
    else if Older(t.sample, RawCutoff(o, now)) != {} then after == t
    else after == t.(buckets := map k | k in t.buckets && k.ts >= BucketCutoff(o, now) :: t.buckets[k])
  }

  lemma CutoffsAdvance(o: Options, t1: Time, t2: Time)
    requires t1 <= t2
    ensures RawCutoff(o, t1) <= RawCutoff(o, t2) && BucketCutoff(o, t1) <= BucketCutoff(o, t2)
  {
  }

  /** With nothing written in between, an earlier compaction never shows in what a later one leaves. */
  ghost predicate Confluent(o: Options) {
    forall t: Tables, mid: Tables, after: Tables, t1: Time, t2: Time ::
      t1 <= t2 && Compacts(t, o, t1, mid) ==> (Compacts(mid, o, t2, after) <==> Compacts(t, o, t2, after))
  }

  lemma ConfluentWhenWide(o: Options)
    requires Width(o) > 0
    ensures Confluent(o)
  {
    hide Folds, Width, RawCutoff, BucketCutoff;
    forall t: Tables, mid: Tables, after: Tables, t1: Time, t2: Time | t1 <= t2 && Compacts(t, o, t1, mid)
      ensures Compacts(mid, o, t2, after) <==> Compacts(t, o, t2, after)
    {
      CutoffsAdvance(o, t1, t2);
      FoldsCompose(t, mid, after, RawCutoff(o, t1), BucketCutoff(o, t1), RawCutoff(o, t2), BucketCutoff(o, t2), Width(o));
    }
  }

  /** Repeating a compaction at the same time changes nothing. */
  lemma Idempotent(o: Options, t: Tables, after: Tables, again: Tables, now: Time)
    requires Width(o) > 0 && Compacts(t, o, now, after) && Compacts(after, o, now, again)
    ensures again == after
  {
    hide Width, RawCutoff, BucketCutoff, Folds;
    ConfluentWhenWide(o);
    assert Compacts(t, o, now, again);
    FoldsUnique(t, RawCutoff(o, now), BucketCutoff(o, now), Width(o), after, again);
  }

  const SOME_ROW := Row(Rates(0.0, 0.0, 0.0, 0.0, 0.0, 0.0), 0, 0)

  /** A bucket that has expired at time zero and a raw row that is a millisecond short of old enough. */
  ghost function Straggler(o: Options): Tables {
    Tables(map[RowKey(0, 0, RawCutoff(o, 0)) := SOME_ROW],
           map[RowKey(0, 0, BucketCutoff(o, 0) - 1) := Bucket(SOME_ROW.rates, 0, 1, 1, 0)])
  }

  lemma NarrowWidthFails(o: Options)
    requires Width(o) == 0
    ensures !Confluent(o)
  {
    var t := Straggler(o);
    var mid := t.(buckets := map[]);
    var raw := RowKey(0, 0, RawCutoff(o, 0));
    assert RawCutoff(o, MILLISECOND) == RawCutoff(o, 0) + 1;
    assert Older(t.sample, RawCutoff(o, 0)) == {};
    assert Compacts(t, o, 0, mid) by {
      assert (map k | k in t.buckets && k.ts >= BucketCutoff(o, 0) :: t.buckets[k]) == map[];
    }
    assert raw in Older(t.sample, RawCutoff(o, MILLISECOND));
    assert Compacts(mid, o, MILLISECOND, mid);
    assert RowKey(0, 0, BucketCutoff(o, 0) - 1) in t.buckets;
    assert !Compacts(t, o, MILLISECOND, mid);
  }

  /** Compaction is confluent exactly when its buckets are at least a millisecond wide (or the default). */
  lemma ConfluentIff(o: Options)
    ensures Confluent(o) <==> o.bucketWidth <= 0 || o.bucketWidth >= MILLISECOND
  {
    hide Confluent;
    if Width(o) > 0 { ConfluentWhenWide(o); } else { NarrowWidthFails(o); }
  }

  /** Afterwards no raw row is older than the raw cutoff and no bucket older than the bucket cutoff; younger raw
      rows are untouched, and so is every bucket in the range kept that no old row belongs to. */
  lemma RetentionHolds(o: Options, t: Tables, after: Tables, now: Time)
    requires Width(o) > 0 && Compacts(t, o, now, after)
    ensures forall k :: k in after.sample <==> k in t.sample && k.ts >= RawCutoff(o, now)
    ensures forall k :: k in after.sample ==> after.sample[k] == t.sample[k]
    ensures forall k :: k in after.buckets ==> k.ts >= BucketCutoff(o, now)
    ensures forall k | k in t.buckets && k.ts >= BucketCutoff(o, now) && Group(t.sample, RawCutoff(o, now), Width(o), k) == {} ::
      k in after.buckets && after.buckets[k] == t.buckets[k]
  {
    hide Width, RawCutoff, BucketCutoff, Group;
    var cutoff, w := RawCutoff(o, now), Width(o);
    forall k | k in t.buckets && k.ts >= BucketCutoff(o, now) && Group(t.sample, cutoff, w, k) == {}
      ensures k in after.buckets && after.buckets[k] == t.buckets[k]
    {
      UntouchedBucket(t, cutoff, w, k);
    }
  }

  lemma UntouchedBucket(t: Tables, cutoff: int, w: int, k: RowKey)
    requires w > 0 && Group(t.sample, cutoff, w, k) == {}
    ensures FoldedBucket(t, cutoff, w, k) == if k in t.buckets then Some(t.buckets[k]) else None
  {
    hide Group, BucketTotal, BucketOf;
    if k in t.buckets {
      BucketBack(t.buckets[k]);
    }
  }

  /** What the history query sees of one product in an aligned range is conserved by a compaction, as far as the buckets
      are kept, exactly when the range starts after the epoch or the product has no old row less than a bucket before
      the start. */
  lemma Conserves(o: Options, t: Tables, after: Tables, now: Time, island: RowId, guid: int32, from: int, to: int)
    requires Width(o) > 0 && Compacts(t, o, now, after)
    requires from % Width(o) == 0 && to % Width(o) == 0 && to > 0 && BucketCutoff(o, now) <= from
    ensures HistoryTotal(after, island, guid, from, to - 1) == HistoryTotal(t, island, guid, from, to - 1)
      <==> NoneShifts(t, island, guid, from, Width(o), RawCutoff(o, now))
  {
    hide Folds, HistoryTotal, NoneShifts;
    FoldConservesIff(t, after, RawCutoff(o, now), BucketCutoff(o, now), Width(o), island, guid, from, to);
  }

  /** A measurement before the epoch: truncation moves it into the bucket at zero, and so into the range that starts
      there. */
  lemma BeforeEpochShifts(w: int, after: Tables)
    requires w > 1 && Folds(Tables(map[RowKey(0, 0, -1) := SOME_ROW], map[]), 0, 0, w, after)
    ensures HistoryTotal(Tables(map[RowKey(0, 0, -1) := SOME_ROW], map[]), 0, 0, 0, w - 1) == None
    ensures HistoryTotal(after, 0, 0, 0, w - 1).Some?
  {
    var t := Tables(map[RowKey(0, 0, -1) := SOME_ROW], map[]);
    var b := RowKey(0, 0, 0);
    assert Truncated(-1, w) == 0 by { assert 1 / w == 0; }
    assert RowKey(0, 0, -1) in Group(t.sample, 0, w, b);
    MidBucket(t, after, 0, 0, w, b);
    hide Folds, BucketTotal;
    assert b in Selection(after.buckets.Keys, 0, 0, 0, w - 1);
    GatherSome(Selection(after.buckets.Keys, 0, 0, 0, w - 1), BucketTotals(after.buckets));
    assert Selection(t.buckets.Keys, 0, 0, 0, w - 1) == {} && Selection(t.sample.Keys, 0, 0, 0, w - 1) == {};
  }
}
