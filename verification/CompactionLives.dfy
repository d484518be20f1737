/** The life of a database: samples are written, late or again, with compactions in any number in between. At every
    moment of it the history query sees every measurement exactly once, unless one was written again after it had been
    folded. */
module CompactionLives {
  import opened Model
  import opened Compaction

  /** Samples are written, replacing those of the same key, or the history is compacted. */
  datatype Change = Write(rows: map<RowKey, Row>) | Compact(now: Time)

  ghost predicate Changes(o: Options, t: Tables, c: Change, next: Tables) {
    match c
    case Write(rows) => next == t.(sample := t.sample + rows)
    case Compact(now) => Compacts(t, o, now, next)
  }

  const NEW_DATABASE := Tables(map[], map[])

  /** A database from some tables on: states[i] is what the first i changes leave. */
  ghost predicate IsLife(o: Options, start: Tables, changes: seq<Change>, states: seq<Tables>) {
    && |states| == |changes| + 1 && states[0] == start
    && forall i :: 0 <= i < |changes| ==> Changes(o, states[i], changes[i], states[i + 1])
  }

  lemma LifePrefix(o: Options, start: Tables, changes: seq<Change>, states: seq<Tables>, n: nat)
    requires IsLife(o, start, changes, states) && n <= |changes|
    ensures IsLife(o, start, changes[..n], states[..n + 1]) && states[..n + 1][n] == states[n]
  {
    hide Changes;
  }

  function Recorded(ever: map<RowKey, Row>, c: Change): map<RowKey, Row> {
    match c case Write(rows) => ever + rows case Compact(_) => ever
  }

  /** Everything ever measured: what was last written under each key. */
  function Ever(changes: seq<Change>): map<RowKey, Row> {
    if changes == [] then map[] else Recorded(Ever(changes[..|changes| - 1]), changes[|changes| - 1])
  }

  /** The measurements of one product in a time range, both ends included. */
  datatype Range = Range(island: RowId, guid: int32, from: int, to: int) {
    ghost function In(keys: set<RowKey>): set<RowKey> { Selection(keys, island, guid, from, to - 1) }

    ghost function Seen(t: Tables): Option<Total> { HistoryTotal(t, island, guid, from, to - 1) }

    ghost function Measured(rows: map<RowKey, Row>): Option<Total> { Gather(In(rows.Keys), RawTotals(rows)) }

    ghost function Folded(t: Tables): Option<Total> { BucketsWithin(t, island, guid, from, to - 1) }

    /** The range consists of whole buckets and ends after the epoch. */
    predicate Aligned(w: nat) { w > 0 && from % w == 0 && to % w == 0 && to > 0 }
  }

  /** A change that counts nothing in the range twice: no key is written whose measurement has been folded, and no
      measurement from before the epoch is moved into the range. */
  ghost predicate CountsOnce(o: Options, t: Tables, ever: map<RowKey, Row>, c: Change, r: Range) {
    match c
    case Write(rows) => forall k :: k in r.In(rows.Keys) && k in ever ==> k in t.sample
    case Compact(now) => NoneShifts(t, r.island, r.guid, r.from, Width(o), RawCutoff(o, now))
  }

  ghost predicate AllCountOnce(o: Options, changes: seq<Change>, states: seq<Tables>, r: Range)
    requires |states| == |changes| + 1
  {
    forall i :: 0 <= i < |changes| ==> CountsOnce(o, states[i], Ever(changes[..i]), changes[i], r)
  }

  lemma OncePrefix(o: Options, changes: seq<Change>, states: seq<Tables>, r: Range)
    requires |states| == |changes| + 1 && changes != []
    ensures var last := |changes| - 1;
      AllCountOnce(o, changes, states, r) <==>
        && AllCountOnce(o, changes[..last], states[..|changes|], r)
        && CountsOnce(o, states[last], Ever(changes[..last]), changes[last], r)
  {
    hide CountsOnce, Ever;
    var last := |changes| - 1;
    var init := changes[..last];
    assert forall i :: 0 <= i < last ==> init[..i] == changes[..i] && init[i] == changes[i];
  }

  /** No compaction so far has expired buckets of the range. */
  ghost predicate Keeps(o: Options, changes: seq<Change>, r: Range) {
    forall c :: c in changes && c.Compact? ==> BucketCutoff(o, c.now) <= r.from
  }

  // --- what the buckets hold ---

  /** The raw rows are the last measurements of their keys; the buckets hold the other measurements, and a surplus. */
  ghost predicate Balanced(t: Tables, ever: map<RowKey, Row>, r: Range, surplus: Option<Total>) {
    && (forall k :: k in t.sample ==> k in ever && ever[k] == t.sample[k])
    && r.Folded(t) == Merge(Gather(r.In(ever.Keys - t.sample.Keys), RawTotals(ever)), surplus)
  }

  lemma NewIsBalanced(r: Range)
    ensures Balanced(NEW_DATABASE, map[], r, None)
  {
    var none: map<RowKey, Row> := map[];
    assert r.In(none.Keys - NEW_DATABASE.sample.Keys) == {};
    assert Selection(NEW_DATABASE.buckets.Keys, r.island, r.guid, r.from, r.to - 1) == {};
  }

  /** Of the measurements folded before a write, some are written again. */
  lemma WriteSplits(t: Tables, ever: map<RowKey, Row>, rows: map<RowKey, Row>, r: Range, rest: set<RowKey>, again: set<RowKey>)
    requires rest == r.In((ever + rows).Keys - (t.sample + rows).Keys)
    requires again == r.In((ever.Keys - t.sample.Keys) * rows.Keys)
    ensures r.In(ever.Keys - t.sample.Keys) == rest + again && rest !! again && again <= RawTotals(ever).Keys
    ensures Gather(rest, RawTotals(ever)) == Gather(rest, RawTotals(ever + rows))
    ensures again == {} <==> forall k :: k in r.In(rows.Keys) && k in ever ==> k in t.sample
  {
    assert again == {} <==> forall k :: k in r.In(rows.Keys) && k in ever ==> k in t.sample by {
      assert forall k :: k in r.In(rows.Keys) && k in ever && k !in t.sample ==> k in again;
    }
    assert forall k :: k in rest ==> TotalAt(RawTotals(ever), k) == TotalAt(RawTotals(ever + rows), k);
    hide RawTotals, TotalAt, Gather;
    GatherSame(rest, RawTotals(ever), RawTotals(ever + rows));
  }

  /** What is written again although it was folded stays in the buckets beside the new row. */
  lemma WriteBalances(t: Tables, ever: map<RowKey, Row>, rows: map<RowKey, Row>, r: Range, surplus: Option<Total>)
    returns (more: Option<Total>)
    requires Balanced(t, ever, r, surplus)
    ensures Balanced(t.(sample := t.sample + rows), ever + rows, r, more)
    ensures more == None <==> surplus == None && forall k :: k in r.In(rows.Keys) && k in ever ==> k in t.sample
  {
    var rest, again := r.In((ever + rows).Keys - (t.sample + rows).Keys), r.In((ever.Keys - t.sample.Keys) * rows.Keys);
    WriteSplits(t, ever, rows, r, rest, again);
    hide RawTotals, Gather, Range.In;
    GatherUnion(rest, again, RawTotals(ever));
    GatherSome(again, RawTotals(ever));
    more := Merge(Gather(again, RawTotals(ever)), surplus);
    MergeLaws(Gather(rest, RawTotals(ever)), Gather(again, RawTotals(ever)), surplus);
  }

  /** The measurements folded so far and those a compaction folds in the range are those folded afterwards. */
  lemma CompactionJoins(t: Tables, after: Tables, ever: map<RowKey, Row>, cutoff: int, r: Range, gone: set<RowKey>)
    requires forall k :: k in t.sample ==> k in ever && ever[k] == t.sample[k]
    requires after.sample == (map k | k in t.sample && k.ts >= cutoff :: t.sample[k])
    requires gone == Gone(t.sample, r.island, r.guid, r.from, r.to - 1, cutoff)
    ensures forall k :: k in after.sample ==> k in ever && ever[k] == after.sample[k]
    ensures Gather(r.In(ever.Keys - after.sample.Keys), RawTotals(ever))
      == Merge(Gather(r.In(ever.Keys - t.sample.Keys), RawTotals(ever)), Gather(gone, RawTotals(t.sample)))
  {
    var folded := r.In(ever.Keys - t.sample.Keys);
    assert r.In(ever.Keys - after.sample.Keys) == folded + gone && folded !! gone;
    assert forall k :: k in gone ==> TotalAt(RawTotals(t.sample), k) == TotalAt(RawTotals(ever), k);
    hide RawTotals, TotalAt, Gather, Merge;
    GatherUnion(folded, gone, RawTotals(ever));
    GatherSame(gone, RawTotals(t.sample), RawTotals(ever));
  }

  lemma MergeNone(a: Option<Total>, b: Option<Total>)
    ensures Merge(a, b) == None <==> a == None && b == None
  {
  }

  /** A compaction moves measurements into the buckets, and those it shifts into the range are a surplus there. */
  lemma CompactionBalances(t: Tables, after: Tables, ever: map<RowKey, Row>, cutoff: int, bucketCutoff: int, w: nat, r: Range,
                           surplus: Option<Total>)
    returns (more: Option<Total>)
    requires r.Aligned(w) && bucketCutoff <= r.from && Folds(t, cutoff, bucketCutoff, w, after)
    requires Balanced(t, ever, r, surplus)
    ensures Balanced(after, ever, r, more)
    ensures more == None <==> surplus == None && NoneShifts(t, r.island, r.guid, r.from, w, cutoff)
  {
    hide RawTotals, Gather, NoneShifts, Gone, Shifted, Range.In, FoldedBucket, Merge;
    var gone := Gone(t.sample, r.island, r.guid, r.from, r.to - 1, cutoff);
    CompactionJoins(t, after, ever, cutoff, r, gone);
    hide Folds;
    RangeGains(t, after, cutoff, bucketCutoff, w, r.island, r.guid, r.from, r.to);
    var shifted := Gather(Shifted(t.sample, r.island, r.guid, r.from, w, cutoff), RawTotals(t.sample));
    more := Merge(surplus, shifted);
    MergeNone(surplus, shifted);
    MergePairs(Gather(r.In(ever.Keys - t.sample.Keys), RawTotals(ever)), surplus, Gather(gone, RawTotals(t.sample)), shifted);
  }

  lemma ChangeBalances(o: Options, t: Tables, c: Change, next: Tables, ever: map<RowKey, Row>, r: Range, before: Option<Total>)
    returns (surplus: Option<Total>)
    requires r.Aligned(Width(o)) && Changes(o, t, c, next) && Balanced(t, ever, r, before)
    requires c.Compact? ==> BucketCutoff(o, c.now) <= r.from
    ensures Balanced(next, Recorded(ever, c), r, surplus)
    ensures surplus == None <==> before == None && CountsOnce(o, t, ever, c, r)
  {
    hide Balanced, Folds, Width, RawCutoff, BucketCutoff, NoneShifts;
    match c
    case Write(rows) =>
      surplus := WriteBalances(t, ever, rows, r, before);
    case Compact(now) =>
      surplus := CompactionBalances(t, next, ever, RawCutoff(o, now), BucketCutoff(o, now), Width(o), r, before);
  }

  lemma {:induction false} LifeIsBalanced(o: Options, changes: seq<Change>, states: seq<Tables>, r: Range)
    returns (surplus: Option<Total>)
    requires r.Aligned(Width(o)) && IsLife(o, NEW_DATABASE, changes, states) && Keeps(o, changes, r)
    ensures Balanced(states[|changes|], Ever(changes), r, surplus)
    ensures surplus == None <==> AllCountOnce(o, changes, states, r)
    decreases |changes|
  {
    if changes == [] {
      surplus := None;
      NewIsBalanced(r);
    } else {
      hide Balanced, Width, BucketCutoff, AllCountOnce, CountsOnce, Changes, Recorded, Range.Aligned;
      var last := |changes| - 1;
      LifePrefix(o, NEW_DATABASE, changes, states, last);
      OncePrefix(o, changes, states, r);
      assert changes[last] in changes && forall c :: c in changes[..last] ==> c in changes;
      var before := LifeIsBalanced(o, changes[..last], states[..|changes|], r);
      surplus := ChangeBalances(o, states[last], changes[last], states[|changes|], Ever(changes[..last]), r, before);
    }
  }

  lemma SurplusShows(folded: Option<Total>, surplus: Option<Total>, kept: Option<Total>)
    ensures Merge(Merge(folded, surplus), kept) == Merge(folded, kept) <==> surplus == None
  {
  }

  lemma SurplusIsSeen(t: Tables, ever: map<RowKey, Row>, r: Range, surplus: Option<Total>)
    requires Balanced(t, ever, r, surplus)
    ensures r.Seen(t) == r.Measured(ever) <==> surplus == None
  {
    var folded, kept := r.In(ever.Keys - t.sample.Keys), r.In(t.sample.Keys);
    assert r.In(ever.Keys) == folded + kept && folded !! kept;
    assert forall k :: k in kept ==> TotalAt(RawTotals(t.sample), k) == TotalAt(RawTotals(ever), k);
    hide RawTotals, TotalAt, Gather;
    GatherUnion(folded, kept, RawTotals(ever));
    GatherSame(kept, RawTotals(t.sample), RawTotals(ever));
    SurplusShows(Gather(folded, RawTotals(ever)), surplus, Gather(kept, RawTotals(ever)));
  }

  /** At every moment of every life of a database, late samples and any number of compactions included: the history query
      sees of a product, in every aligned range whose buckets are kept, exactly what was ever measured there (the sums of
      all rates, the number of measurements, the maxima), if and only if no key was written again after its measurement
      had been folded, and no compaction moved one from before the epoch into the range. */
  lemma HistoryIsMeasuredIff(o: Options, changes: seq<Change>, states: seq<Tables>, r: Range)
    requires r.Aligned(Width(o)) && IsLife(o, NEW_DATABASE, changes, states) && Keeps(o, changes, r)
    ensures r.Seen(states[|changes|]) == r.Measured(Ever(changes)) <==> AllCountOnce(o, changes, states, r)
  {
    hide AllCountOnce, Width, Balanced;
    var surplus := LifeIsBalanced(o, changes, states, r);
    SurplusIsSeen(states[|changes|], Ever(changes), r, surplus);
  }

  // --- a measurement that is counted twice ---

  lemma GatherOne(k: RowKey, totals: map<RowKey, Total>)
    ensures Gather({k}, totals) == TotalAt(totals, k)
  {
    GatherTake({k}, totals, k);
    assert {k} - {k} == {};
  }

  const SOME_KEY := RowKey(0, 0, 0)
  const SAME_ROW := map[SOME_KEY := SOME_ROW]

  lemma FirstFolded(o: Options, now: Time) returns (after: Tables)
    requires Width(o) > 0 && RawCutoff(o, now) > 0 && BucketCutoff(o, now) <= 0
    ensures Compacts(Tables(SAME_ROW, map[]), o, now, after)
    ensures after.sample == map[] && after.buckets.Keys == {SOME_KEY}
    ensures after.buckets[SOME_KEY].count == 1 && after.buckets[SOME_KEY].width == Width(o)
  {
    var t, cutoff, w := Tables(SAME_ROW, map[]), RawCutoff(o, now), Width(o);
    after := FoldExists(t, cutoff, BucketCutoff(o, now), w);
    assert BucketKey(SOME_KEY, w) == SOME_KEY;
    assert Group(t.sample, cutoff, w, SOME_KEY) == {SOME_KEY};
    forall k: RowKey | k != SOME_KEY ensures k !in after.buckets {
      if k.ts >= BucketCutoff(o, now) {
        MidBucket(t, after, cutoff, BucketCutoff(o, now), w, k);
        assert Group(t.sample, cutoff, w, k) == {};
      }
    }
    MidBucket(t, after, cutoff, BucketCutoff(o, now), w, SOME_KEY);
    GatherOne(SOME_KEY, RawTotals(t.sample));
  }

  /** A recording that is played again after its samples were folded: the same sample is written once more, is then in
      both tables, and counts as two measurements. */
  lemma WrittenAgainCountsTwice(o: Options, now: Time) returns (changes: seq<Change>, states: seq<Tables>, r: Range)
    requires Width(o) > 0 && RawCutoff(o, now) > 0 && BucketCutoff(o, now) <= 0
    ensures changes == [Write(SAME_ROW), Compact(now), Write(SAME_ROW)]
    ensures IsLife(o, NEW_DATABASE, changes, states) && r.Aligned(Width(o)) && Keeps(o, changes, r)
    ensures SOME_KEY in states[3].sample && SOME_KEY in states[3].buckets
    ensures r.Measured(Ever(changes)) == Some(RawTotal(SOME_ROW))
    ensures r.Seen(states[3]).Some? && r.Seen(states[3]).value.count == 2
  {
    var t := Tables(SAME_ROW, map[]);
    var after := FirstFolded(o, now);
    var both := after.(sample := SAME_ROW);
    changes, states, r := [Write(SAME_ROW), Compact(now), Write(SAME_ROW)], [NEW_DATABASE, t, after, both], Range(0, 0, 0, Width(o));
    hide Compacts, Width, BucketCutoff, RawCutoff;
    assert map[] + SAME_ROW == SAME_ROW;
    assert Changes(o, states[0], changes[0], states[1]) && Changes(o, states[1], changes[1], states[2])
        && Changes(o, states[2], changes[2], states[3]);
    EverSame(now);
    assert r.In(SAME_ROW.Keys) == {SOME_KEY} == r.In(both.buckets.Keys);
    GatherOne(SOME_KEY, RawTotals(SAME_ROW));
    GatherOne(SOME_KEY, BucketTotals(both.buckets));
  }

  lemma EverSame(now: Time)
    ensures Ever([Write(SAME_ROW), Compact(now), Write(SAME_ROW)]) == SAME_ROW
  {
    var changes := [Write(SAME_ROW), Compact(now), Write(SAME_ROW)];
    assert Ever([Write(SAME_ROW)]) == SAME_ROW by {
      assert [Write(SAME_ROW)][..0] == [] && map[] + SAME_ROW == SAME_ROW;
    }
    assert changes[..2] == [Write(SAME_ROW), Compact(now)] && changes[..2][..1] == [Write(SAME_ROW)];
    assert SAME_ROW + SAME_ROW == SAME_ROW;
  }
}
