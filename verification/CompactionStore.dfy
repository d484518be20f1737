/** Compaction as the database runs it: one grouped upsert and two deletes in a transaction. */
module CompactionStore {
  import opened Model
  import opened Compaction
  import opened CompactionColumns

  datatype Stats = Stats(bucketRows: nat, rawDeleted: nat, bucketDeleted: nat)

  /** The row ON CONFLICT leaves: means weighted by count, maxima, the sum of the counts. */
  function Upserted(b: Bucket, e: Bucket): Bucket {
    Bucket(b.means.Times(b.count as real).Plus(e.means.Times(e.count as real)).Over((b.count + e.count) as real),
           Max(b.buildings, e.buildings), b.count + e.count, Max(b.width, e.width), Max(b.gameTsMax, e.gameTsMax))
  }

  function Lookup(buckets: map<RowKey, Bucket>, k: RowKey): Option<Bucket> {
    if k in buckets then Some(buckets[k]) else None
  }

  /** Upserting a group's row is folding the group. */
  lemma UpsertFolds(t: Tables, cutoff: int, w: int, k: RowKey, total: Total)
    requires w > 0 && Group(t.sample, cutoff, w, k) != {}
    requires Some(total) == Gather(Group(t.sample, cutoff, w, k), RawTotals(t.sample))
    ensures FoldedBucket(t, cutoff, w, k) ==
      Some(if k in t.buckets then Upserted(t.buckets[k], BucketOf(total, w)) else BucketOf(total, w))
  {
    hide Group, Gather, RawTotals, Rates.Over, Rates.Times, Rates.Plus;
    BucketTotalBack(total, w);
  }

  /** The buckets while the groups in todo are still to be upserted. */
  ghost predicate Aggregating(t: Tables, cutoff: int, w: int, todo: set<RowKey>, buckets: map<RowKey, Bucket>)
    requires w > 0
  {
    forall k: RowKey ::
      Lookup(buckets, k) == if k in todo then Lookup(t.buckets, k) else FoldedBucket(t, cutoff, w, k)
  }

  lemma AggregationStarts(t: Tables, cutoff: int, w: int)
    requires w > 0
    ensures Aggregating(t, cutoff, w, Groups(t.sample, cutoff, w), t.buckets)
  {
    hide FoldedBucket;
    forall k: RowKey | k !in Groups(t.sample, cutoff, w)
      ensures Lookup(t.buckets, k) == FoldedBucket(t, cutoff, w, k)
    {
      hide BucketKey;
      assert Group(t.sample, cutoff, w, k) == {};
      UntouchedBucket(t, cutoff, w, k);
    }
  }

  /** The buckets a compaction folds into; with no usable width it only gets this far when there is nothing to fold. */
  function GroupsOf(o: Options, sample: map<RowKey, Row>, cutoff: int): set<RowKey> {
    if Width(o) > 0 then Groups(sample, cutoff, Width(o)) else {}
  }

  lemma AggregatedKeys(t: Tables, cutoff: int, w: int, buckets: map<RowKey, Bucket>)
    requires w > 0 && Aggregating(t, cutoff, w, {}, buckets)
    ensures buckets.Keys == t.buckets.Keys + Groups(t.sample, cutoff, w)
  {
    forall k: RowKey ensures k in buckets <==> k in t.buckets || k in Groups(t.sample, cutoff, w) {
      assert Lookup(buckets, k) == FoldedBucket(t, cutoff, w, k);
      GatherSome(Group(t.sample, cutoff, w, k), RawTotals(t.sample));
      GroupsAreFilled(t, cutoff, w, k);
      hide Gather, Group, Groups;
    }
  }

  lemma GroupsAreFilled(t: Tables, cutoff: int, w: int, k: RowKey)
    requires w > 0
    ensures k in Groups(t.sample, cutoff, w) <==> Group(t.sample, cutoff, w, k) != {}
  {
    hide BucketKey;
    if raw :| raw in Group(t.sample, cutoff, w, k) {
      assert k in Groups(t.sample, cutoff, w);
    }
    if k in Groups(t.sample, cutoff, w) { GroupIsFilled(t, cutoff, w, k); }
  }

  ghost predicate RetainedFrom(before: Tables, rawCutoff: int, bucketCutoff: int, w: nat, after: Tables) {
    if w > 0 then FillsColumns(before, after, rawCutoff, bucketCutoff, w)
    else
      && after.sample == before.sample && (forall k :: k in before.sample ==> k.ts >= rawCutoff)
      && after.buckets == map b | b in before.buckets && b.ts >= bucketCutoff :: before.buckets[b]
  }

  /** What a compaction at this time must leave, in milliseconds and columns: seven days of samples, ninety days of buckets
      and ten minutes a bucket, where an option is not positive. */
  ghost predicate Retained(before: Tables, o: Options, now: Time, after: Tables) {
    RetainedFrom(before,
                 (now - if o.rawRetention > 0 then o.rawRetention else 604_800_000_000_000) / 1_000_000,
                 (now - if o.bucketRetention > 0 then o.bucketRetention else 7_776_000_000_000_000) / 1_000_000,
                 (if o.bucketWidth > 0 then o.bucketWidth else 600_000_000_000) / 1_000_000,
                 after)
  }

  lemma OptionsAre(o: Options, now: Time)
    ensures RawCutoff(o, now) == (now - if o.rawRetention > 0 then o.rawRetention else 604_800_000_000_000) / 1_000_000
    ensures BucketCutoff(o, now) == (now - if o.bucketRetention > 0 then o.bucketRetention else 7_776_000_000_000_000) / 1_000_000
    ensures Width(o) == (if o.bucketWidth > 0 then o.bucketWidth else 600_000_000_000) / 1_000_000
  {
  }

  lemma RetainsFrom(before: Tables, o: Options, now: Time, after: Tables)
    requires Compacts(before, o, now, after)
    requires Width(o) == 0 ==> Older(before.sample, RawCutoff(o, now)) == {}
    ensures RetainedFrom(before, RawCutoff(o, now), BucketCutoff(o, now), Width(o), after)
  {
    hide RawCutoff, BucketCutoff, Width, FillsColumns, Folds;
    if Width(o) > 0 {
      FoldsFillColumns(before, after, RawCutoff(o, now), BucketCutoff(o, now), Width(o));
    } else {
      assert forall k :: k in before.sample && k.ts < RawCutoff(o, now) ==> k in Older(before.sample, RawCutoff(o, now));
    }
  }

  lemma CompactionRetains(before: Tables, o: Options, now: Time, after: Tables)
    requires Compacts(before, o, now, after)
    requires Width(o) == 0 ==> Older(before.sample, RawCutoff(o, now)) == {}
    ensures Retained(before, o, now, after)
  {
    hide RetainedFrom, Compacts, RawCutoff, BucketCutoff, Width;
    RetainsFrom(before, o, now, after);
    OptionsAre(o, now);
  }

  /** The buckets after the upserts, when every group is folded, hold their columns. */
  lemma AggregationFills(t: Tables, cutoff: int, w: int, buckets: map<RowKey, Bucket>, b: RowKey)
    requires w > 0 && Aggregating(t, cutoff, w, {}, buckets) && b in Groups(t.sample, cutoff, w)
    ensures b in buckets && HoldsColumns(buckets[b], t, Feeding(t.sample, cutoff, w, b), w, b)
  {
    GroupIsFilled(t, cutoff, w, b);
    var after := Tables(map k | k in t.sample && k.ts >= cutoff :: t.sample[k], map k | k in buckets && k.ts >= b.ts :: buckets[k]);
    hide FoldedBucket, HoldsColumns, Group, Groups;
    assert forall k: RowKey :: Lookup(buckets, k) == FoldedBucket(t, cutoff, w, k);
    assert Folds(t, cutoff, b.ts, w, after);
    BucketIsThere(t, after, cutoff, b.ts, w, b);
    FeedingIsGroup(t.sample, cutoff, w, b);
    BucketIsFilled(t, after, cutoff, b.ts, w, b);
  }

  class SampleStore {
    var sample: map<RowKey, Row>
    var buckets: map<RowKey, Bucket>

    function Contents(): Tables
      reads this
    {
      Tables(sample, buckets)
    }

    constructor ()
      ensures Contents() == Tables(map[], map[])
    {
      sample, buckets := map[], map[];
    }

    /** avg, max and count over one group, visited in any order. */
    method Summarize(keys: set<RowKey>) returns (total: Total)
      requires keys != {} && keys <= sample.Keys
      ensures Some(total) == Gather(keys, RawTotals(sample))
    {
      hide Merge, Gather, TotalAt;
      ghost var totals := RawTotals(sample);
      var sum: Option<Total> := None;
      var todo := keys;
      NothingSummed(Gather(keys, totals));
      while todo != {}
        invariant todo <= keys
        invariant Merge(sum, Gather(todo, totals)) == Gather(keys, totals)
        decreases todo
      {
        var k :| k in todo;
        GatherTake(todo, totals, k);
        Summed(sample, k);
        MergeLaws(TotalAt(totals, k), Gather(todo - {k}, totals), None);
        MergeLaws(sum, TotalAt(totals, k), Gather(todo - {k}, totals));
        sum := Merge(sum, Some(RawTotal(sample[k])));
        todo := todo - {k};
      }
      AllSummed(sum, keys, totals);
      total := sum.value;
    }

    method Upsert(k: RowKey, row: Bucket)
      modifies this`buckets
      ensures buckets == old(buckets)[k := if k in old(buckets) then Upserted(old(buckets)[k], row) else row]
    {
      buckets := buckets[k := if k in buckets then Upserted(buckets[k], row) else row];
    }

    method Aggregate(w: int, cutoff: int) returns (rows: nat)
      requires w > 0
      modifies this`buckets
      ensures Aggregating(old(Contents()), cutoff, w, {}, buckets)
      ensures forall b :: b in Groups(sample, cutoff, w) ==>
        b in buckets && HoldsColumns(buckets[b], old(Contents()), Feeding(sample, cutoff, w, b), w, b)
      ensures rows == |Groups(sample, cutoff, w)|
    {
      hide FoldedBucket, Upserted, BucketOf, Group;
      ghost var t := Contents();
      var todo := Groups(sample, cutoff, w);
      rows := |todo|;
      AggregationStarts(t, cutoff, w);
      while todo != {}
        invariant todo <= Groups(sample, cutoff, w)
        invariant Aggregating(t, cutoff, w, todo, buckets)
        decreases todo
      {
        var k :| k in todo;
        GroupIsFilled(t, cutoff, w, k);
        var total := Summarize(Group(sample, cutoff, w, k));
        UpsertFolds(t, cutoff, w, k, total);
        assert Lookup(buckets, k) == Lookup(t.buckets, k);
        Upsert(k, BucketOf(total, w));
        todo := todo - {k};
      }
      forall b | b in Groups(sample, cutoff, w)
        ensures b in buckets && HoldsColumns(buckets[b], t, Feeding(sample, cutoff, w, b), w, b)
      {
        AggregationFills(t, cutoff, w, buckets, b);
      }
    }

    method DeleteRaw(cutoff: int) returns (rows: nat)
      modifies this`sample
      ensures sample == (map k | k in old(sample) && k.ts >= cutoff :: old(sample)[k])
      ensures rows == |Older(old(sample), cutoff)|
    {
      rows := |Older(sample, cutoff)|;
      sample := map k | k in sample && k.ts >= cutoff :: sample[k];
    }

    method DeleteBuckets(cutoff: int) returns (rows: nat)
      modifies this`buckets
      ensures buckets == (map k | k in old(buckets) && k.ts >= cutoff :: old(buckets)[k])
      ensures rows == |set k | k in old(buckets) && k.ts < cutoff|
    {
      rows := |set k | k in buckets && k.ts < cutoff|;
      buckets := map k | k in buckets && k.ts >= cutoff :: buckets[k];
    }

    /** The whole run. None is a failed transaction, which leaves everything as it was; with a width below a millisecond
        it always fails when there is something to fold. */
    method Compact(now: Time, o: Options) returns (stats: Option<Stats>)
      modifies this
      ensures if stats.None? then Contents() == old(Contents()) else Compacts(old(Contents()), o, now, Contents())
      ensures stats.Some? ==> Retained(old(Contents()), o, now, Contents())
      ensures Width(o) == 0 && Older(old(sample), RawCutoff(o, now)) != {} ==> stats.None?
      ensures stats.Some? ==>
        var groups := GroupsOf(o, old(sample), RawCutoff(o, now));
        && stats.value.bucketRows == |groups|
        && stats.value.rawDeleted == |Older(old(sample), RawCutoff(o, now))|
        && stats.value.bucketDeleted == |set k | k in old(buckets).Keys + groups && k.ts < BucketCutoff(o, now)|
    {
      hide FoldedBucket, Retained;
      var rawCutoff, bucketCutoff, w := RawCutoff(o, now), BucketCutoff(o, now), Width(o);
      var fails: bool := *;
      if fails {
        return None;
      }
      var aggregated, rawDeleted := 0, 0;
      if w > 0 {
        aggregated := Aggregate(w, rawCutoff);
        AggregatedKeys(old(Contents()), rawCutoff, w, buckets);
        rawDeleted := DeleteRaw(rawCutoff);
      } else if Older(sample, rawCutoff) != {} {
        return None;
      }
      assert buckets.Keys == old(buckets).Keys + GroupsOf(o, old(sample), rawCutoff);
      assert (set k | k in buckets && k.ts < bucketCutoff)
          == (set k | k in old(buckets).Keys + GroupsOf(o, old(sample), rawCutoff) && k.ts < bucketCutoff);
      var bucketDeleted := DeleteBuckets(bucketCutoff);
      stats := Some(Stats(aggregated, rawDeleted, bucketDeleted));
      CompactionRetains(old(Contents()), o, now, Contents());
    }
  }

  lemma NothingSummed(total: Option<Total>)
    ensures Merge(None, total) == total
  {
  }

  lemma Summed(sample: map<RowKey, Row>, k: RowKey)
    requires k in sample
    ensures TotalAt(RawTotals(sample), k) == Some(RawTotal(sample[k]))
  {
  }

  lemma AllSummed(sum: Option<Total>, keys: set<RowKey>, totals: map<RowKey, Total>)
    requires keys != {} && keys <= totals.Keys && Merge(sum, Gather({}, totals)) == Gather(keys, totals)
    ensures sum.Some? && sum == Gather(keys, totals)
  {
    GatherSome(keys, totals);
  }

  lemma GroupIsFilled(t: Tables, cutoff: int, w: int, k: RowKey)
    requires w > 0 && k in Groups(t.sample, cutoff, w)
    ensures Group(t.sample, cutoff, w, k) != {} && Group(t.sample, cutoff, w, k) <= t.sample.Keys
  {
    hide BucketKey;
    var raw :| raw in t.sample && raw.ts < cutoff && BucketKey(raw, w) == k;
    assert raw in Group(t.sample, cutoff, w, k);
  }
}
