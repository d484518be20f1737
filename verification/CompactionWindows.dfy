/** When the two resolutions of the history overlap in time: after one compaction, and at every moment of a database's
    life. */
module CompactionWindows {
  import opened Model
  import opened Compaction
  import opened CompactionLives

  /** No raw row lies in the time window of a bucket of its own product. */
  ghost predicate WindowsDisjoint(t: Tables) {
    forall b, k :: b in t.buckets && k in t.sample && k.island == b.island && k.guid == b.guid ==>
      !(b.ts <= k.ts < b.ts + t.buckets[b].width)
  }

  ghost predicate SinceEpoch(rows: map<RowKey, Row>) {
    forall k :: k in rows ==> k.ts >= 0
  }

  /** The width that an earlier build gave its buckets: its windows fill those of today. */
  predicate Legacy(legacy: int, w: int) { 0 < legacy && 0 < w && w % legacy == 0 }

  /** What earlier compactions leave: every bucket lies below the cutoff, has today's width or the legacy one, and starts
      at a multiple of it. */
  ghost predicate Binned(t: Tables, cutoff: int, w: int, legacy: int)
    requires Legacy(legacy, w)
  {
    && SinceEpoch(t.sample)
    && forall b :: b in t.buckets ==>
         && 0 <= b.ts < cutoff && (t.buckets[b].width == w || t.buckets[b].width == legacy)
         && b.ts == Truncated(b.ts, t.buckets[b].width)
  }

  // --- whole windows ---

  lemma QuotientUnique(x: int, q: int, r: int, w: int)
    requires 0 <= r < w && x == q * w + r
    ensures x / w == q
  {
    var p := x / w;
    assert (q - p) * w == x % w - r;
    WholeSteps(q - p, w);
  }

  lemma WindowOrder(q: int, c: int, r: int, s: int, w: int)
    requires 0 <= r < w && 0 <= s < w && q * w + r < c * w + s
    ensures q * w + w <= c * w || (q * w == c * w && s != 0)
  {
    WholeSteps(c - q, w);
    assert (c - q) * w == c * w - q * w;
  }

  /** The window of a row below the cutoff ends at the cutoff at the latest, unless it is the one the cutoff cuts. */
  lemma WindowEnds(ts: int, cutoff: int, w: int)
    requires w > 0 && 0 <= ts < cutoff
    ensures ts / w * w + w <= cutoff || (ts / w * w == cutoff / w * w && cutoff % w != 0)
  {
    WindowOrder(ts / w, cutoff / w, ts % w, cutoff % w, w);
  }

  lemma SameWindow(ts: int, w: int)
    requires w > 0 && ts > 0 && ts % w != 0
    ensures (ts - 1) / w * w == ts / w * w && ts / w * w <= ts < ts / w * w + w
  {
    QuotientUnique(ts - 1, ts / w, ts % w - 1, w);
  }

  lemma TruncatedStart(ts: int, w: int)
    requires w > 0 && ts >= 0
    ensures 0 <= Truncated(ts, w) <= ts && Truncated(Truncated(ts, w), w) == Truncated(ts, w)
  {
    WholeSteps(ts / w, w);
    QuotientUnique(ts / w * w, ts / w, 0, w);
  }

  /** A window that starts at a multiple of its width covers exactly the times truncated to its start. */
  lemma WindowCovers(start: int, ts: int, w: int)
    requires w > 0 && start >= 0 && ts >= 0 && start == Truncated(start, w)
    ensures start <= ts < start + w <==> Truncated(ts, w) == start
  {
    if start <= ts < start + w {
      QuotientUnique(ts, start / w, ts - start, w);
    }
  }

  lemma LegacyIsNarrow(legacy: int, w: int)
    requires Legacy(legacy, w)
    ensures legacy <= w
  {
    assert w == w / legacy * legacy;
    WholeSteps(w / legacy, legacy);
  }

  // --- one compaction ---

  lemma BucketAfter(t: Tables, after: Tables, rawCutoff: int, bucketCutoff: int, w: int, b: RowKey)
    requires w > 0 && Folds(t, rawCutoff, bucketCutoff, w, after) && b in after.buckets
    ensures b.ts >= bucketCutoff && after.buckets[b].width == FoldedWidth(t, rawCutoff, w, b)
    ensures b in t.buckets || Group(t.sample, rawCutoff, w, b) != {}
  {
    MidBucket(t, after, rawCutoff, bucketCutoff, w, b);
  }

  lemma GroupStart(sample: map<RowKey, Row>, cutoff: int, w: int, b: RowKey)
    requires w > 0 && SinceEpoch(sample) && Group(sample, cutoff, w, b) != {}
    ensures 0 <= b.ts < cutoff && b.ts == Truncated(b.ts, w)
  {
    var k :| k in Group(sample, cutoff, w, b);
    TruncatedStart(k.ts, w);
  }

  /** A compaction keeps the buckets binned, for its own cutoff and so for any later one. */
  lemma BinnedPersists(t: Tables, after: Tables, cutoff: int, bucketCutoff: int, w: int, legacy: int)
    requires Legacy(legacy, w) && Binned(t, cutoff, w, legacy) && Folds(t, cutoff, bucketCutoff, w, after)
    ensures Binned(after, cutoff, w, legacy)
  {
    assert SinceEpoch(after.sample);
    LegacyIsNarrow(legacy, w);
    hide Truncated, Legacy;
    forall b | b in after.buckets
      ensures 0 <= b.ts < cutoff && (after.buckets[b].width == w || after.buckets[b].width == legacy)
      ensures b.ts == Truncated(b.ts, after.buckets[b].width)
    {
      hide Group;
      BucketAfter(t, after, cutoff, bucketCutoff, w, b);
      if Group(t.sample, cutoff, w, b) != {} {
        GroupStart(t.sample, cutoff, w, b);
      }
    }
  }

  /** Binned, with no raw row below the raw cutoff and no bucket below the bucket cutoff. */
  ghost predicate Compacted(t: Tables, rawCutoff: int, bucketCutoff: int, w: int, legacy: int)
    requires Legacy(legacy, w)
  {
    && Binned(t, rawCutoff, w, legacy)
    && (forall k :: k in t.sample ==> k.ts >= rawCutoff) && (forall b :: b in t.buckets ==> b.ts >= bucketCutoff)
  }

  lemma CompactionCompacts(t: Tables, after: Tables, cutoff: int, bucketCutoff: int, w: int, legacy: int)
    requires Legacy(legacy, w) && Binned(t, cutoff, w, legacy) && Folds(t, cutoff, bucketCutoff, w, after)
    ensures Compacted(after, cutoff, bucketCutoff, w, legacy)
  {
    BinnedPersists(t, after, cutoff, bucketCutoff, w, legacy);
    forall b | b in after.buckets ensures b.ts >= bucketCutoff {
      BucketAfter(t, after, cutoff, bucketCutoff, w, b);
    }
  }

  /** The raw cutoff does not cut a window of this width that is kept. */
  predicate NotCut(rawCutoff: int, bucketCutoff: int, w: int)
    requires w > 0
  {
    rawCutoff <= 0 || rawCutoff % w == 0 || rawCutoff / w * w < bucketCutoff
  }

  predicate NoneCut(rawCutoff: int, bucketCutoff: int, w: int, legacy: int)
    requires Legacy(legacy, w)
  {
    NotCut(rawCutoff, bucketCutoff, w) && NotCut(rawCutoff, bucketCutoff, legacy)
  }

  lemma WindowEndsBefore(ts: int, rawCutoff: int, bucketCutoff: int, v: int)
    requires v > 0 && NotCut(rawCutoff, bucketCutoff, v) && 0 <= ts < rawCutoff && bucketCutoff <= ts && ts == Truncated(ts, v)
    ensures ts + v <= rawCutoff
  {
    WindowEnds(ts, rawCutoff, v);
  }

  /** Then the windows end before the cutoff, where no later sample lies that is in time. */
  lemma WindowsEnd(t: Tables, rawCutoff: int, bucketCutoff: int, w: int, legacy: int)
    requires Legacy(legacy, w) && Compacted(t, rawCutoff, bucketCutoff, w, legacy) && NoneCut(rawCutoff, bucketCutoff, w, legacy)
    ensures forall b :: b in t.buckets ==> b.ts + t.buckets[b].width <= rawCutoff
  {
    forall b | b in t.buckets ensures b.ts + t.buckets[b].width <= rawCutoff {
      WindowEndsBefore(b.ts, rawCutoff, bucketCutoff, t.buckets[b].width);
    }
  }

  ghost predicate AlwaysDisjoint(rawCutoff: int, bucketCutoff: int, w: int, legacy: int)
    requires Legacy(legacy, w)
  {
    forall t: Tables, after: Tables ::
      Binned(t, rawCutoff, w, legacy) && Folds(t, rawCutoff, bucketCutoff, w, after) ==> WindowsDisjoint(after)
  }

  lemma NoneCutIsDisjoint(rawCutoff: int, bucketCutoff: int, w: int, legacy: int)
    requires Legacy(legacy, w) && NoneCut(rawCutoff, bucketCutoff, w, legacy)
    ensures AlwaysDisjoint(rawCutoff, bucketCutoff, w, legacy)
  {
    assert w > 0;
    hide Binned, Folds, NoneCut, Legacy;
    forall t: Tables, after: Tables | Binned(t, rawCutoff, w, legacy) && Folds(t, rawCutoff, bucketCutoff, w, after)
      ensures WindowsDisjoint(after)
    {
      CompactionCompacts(t, after, rawCutoff, bucketCutoff, w, legacy);
      WindowsEnd(after, rawCutoff, bucketCutoff, w, legacy);
    }
  }

  ghost function Straddling(rawCutoff: int): map<RowKey, Row> {
    map[RowKey(0, 0, rawCutoff - 1) := SOME_ROW, RowKey(0, 0, rawCutoff) := SOME_ROW]
  }

  /** Two rows on either side of a cutoff that cuts a window: the bucket of one covers the other. */
  lemma StraddlingOverlaps(rawCutoff: int, bucketCutoff: int, w: int, after: Tables)
    requires w > 0 && !NotCut(rawCutoff, bucketCutoff, w)
    requires Folds(Tables(Straddling(rawCutoff), map[]), rawCutoff, bucketCutoff, w, after)
    ensures !WindowsDisjoint(after)
  {
    var t := Tables(Straddling(rawCutoff), map[]);
    var b, k := RowKey(0, 0, rawCutoff / w * w), RowKey(0, 0, rawCutoff);
    SameWindow(rawCutoff, w);
    var first := RowKey(0, 0, rawCutoff - 1);
    assert first in Group(t.sample, rawCutoff, w, b);
    MidBucket(t, after, rawCutoff, bucketCutoff, w, b);
    BucketAfter(t, after, rawCutoff, bucketCutoff, w, b);
    assert k in after.sample && b in after.buckets;
  }

  /** A bucket of an earlier build in front of a raw row that its window covers. */
  ghost function Leftover(rawCutoff: int, legacy: int): Tables
    requires legacy > 0
  {
    Tables(map[RowKey(0, 0, rawCutoff) := SOME_ROW],
           map[RowKey(0, 0, rawCutoff / legacy * legacy) := Bucket(SOME_ROW.rates, 0, 1, legacy, 0)])
  }

  lemma LeftoverIsBinned(rawCutoff: int, w: int, legacy: int)
    requires Legacy(legacy, w) && rawCutoff > 0 && rawCutoff % legacy != 0
    ensures Binned(Leftover(rawCutoff, legacy), rawCutoff, w, legacy)
    ensures rawCutoff / legacy * legacy < rawCutoff < rawCutoff / legacy * legacy + legacy
  {
    SameWindow(rawCutoff, legacy);
    TruncatedStart(rawCutoff, legacy);
    assert rawCutoff / legacy * legacy != rawCutoff;
  }

  lemma LeftoverOverlaps(rawCutoff: int, bucketCutoff: int, w: int, legacy: int, after: Tables)
    requires Legacy(legacy, w) && !NotCut(rawCutoff, bucketCutoff, legacy)
    requires Folds(Leftover(rawCutoff, legacy), rawCutoff, bucketCutoff, w, after)
    ensures Binned(Leftover(rawCutoff, legacy), rawCutoff, w, legacy) && !WindowsDisjoint(after)
  {
    var t := Leftover(rawCutoff, legacy);
    var b, k := RowKey(0, 0, rawCutoff / legacy * legacy), RowKey(0, 0, rawCutoff);
    LeftoverIsBinned(rawCutoff, w, legacy);
    hide Binned, Truncated;
    assert Group(t.sample, rawCutoff, w, b) == {};
    MidBucket(t, after, rawCutoff, bucketCutoff, w, b);
    assert k in after.sample && b in after.buckets && after.buckets[b].width == legacy;
  }

  lemma CutIsNotDisjoint(rawCutoff: int, bucketCutoff: int, w: int, legacy: int)
    requires Legacy(legacy, w) && !NoneCut(rawCutoff, bucketCutoff, w, legacy)
    ensures !AlwaysDisjoint(rawCutoff, bucketCutoff, w, legacy)
  {
    hide Folds, WindowsDisjoint;
    var cutsNew := !NotCut(rawCutoff, bucketCutoff, w);
    var t := if cutsNew then Tables(Straddling(rawCutoff), map[]) else Leftover(rawCutoff, legacy);
    var after := FoldExists(t, rawCutoff, bucketCutoff, w);
    if cutsNew {
      assert Binned(t, rawCutoff, w, legacy);
      StraddlingOverlaps(rawCutoff, bucketCutoff, w, after);
    } else {
      LeftoverOverlaps(rawCutoff, bucketCutoff, w, legacy, after);
    }
  }

  /** For whatever earlier compactions and builds left, a compaction leaves no raw row in a bucket's window exactly when
      its raw cutoff cuts no window, of either width: when it is a multiple of the width (or not positive), or when the
      bucket it cuts has itself expired. */
  lemma WindowsDisjointIff(rawCutoff: int, bucketCutoff: int, w: int, legacy: int)
    requires Legacy(legacy, w)
    ensures AlwaysDisjoint(rawCutoff, bucketCutoff, w, legacy) <==> NoneCut(rawCutoff, bucketCutoff, w, legacy)
  {
    hide AlwaysDisjoint, NoneCut, Legacy;
    if NoneCut(rawCutoff, bucketCutoff, w, legacy) {
      NoneCutIsDisjoint(rawCutoff, bucketCutoff, w, legacy);
    } else {
      CutIsNotDisjoint(rawCutoff, bucketCutoff, w, legacy);
    }
  }

  // --- samples that arrive after a compaction ---

  /** A sample falls into a window that has been folded. */
  ghost predicate Covered(t: Tables, k: RowKey, v: int)
    requires v > 0
  {
    BucketKey(k, v) in t.buckets && t.buckets[BucketKey(k, v)].width == v
  }

  ghost predicate TooLate(t: Tables, k: RowKey, w: int, legacy: int)
    requires Legacy(legacy, w)
  {
    Covered(t, k, w) || Covered(t, k, legacy)
  }

  lemma TooLateIff(t: Tables, k: RowKey, cutoff: int, w: int, legacy: int)
    requires Legacy(legacy, w) && Binned(t, cutoff, w, legacy) && k.ts >= 0
    ensures TooLate(t, k, w, legacy) <==>
      exists b :: b in t.buckets && k.island == b.island && k.guid == b.guid && b.ts <= k.ts < b.ts + t.buckets[b].width
  {
    assert 0 < legacy && 0 < w;
    hide Truncated, Legacy, SinceEpoch;
    forall v | (v == w || v == legacy) && Covered(t, k, v)
      ensures BucketKey(k, v).ts <= k.ts < BucketKey(k, v).ts + v
    {
      WindowCovers(BucketKey(k, v).ts, k.ts, v);
    }
    forall b | b in t.buckets && k.island == b.island && k.guid == b.guid && b.ts <= k.ts < b.ts + t.buckets[b].width
      ensures TooLate(t, k, w, legacy)
    {
      WindowCovers(b.ts, k.ts, t.buckets[b].width);
      assert BucketKey(k, t.buckets[b].width) == b;
    }
  }

  /** Behind a compaction that cuts no window, samples lie outside of all windows exactly as far as none is too late. */
  lemma LateSamplesIff(t: Tables, rows: map<RowKey, Row>, rawCutoff: int, bucketCutoff: int, w: int, legacy: int)
    requires Legacy(legacy, w) && Compacted(t, rawCutoff, bucketCutoff, w, legacy) && NoneCut(rawCutoff, bucketCutoff, w, legacy)
    requires SinceEpoch(rows)
    ensures WindowsDisjoint(t.(sample := t.sample + rows)) <==> forall k :: k in rows ==> !TooLate(t, k, w, legacy)
  {
    WindowsEnd(t, rawCutoff, bucketCutoff, w, legacy);
    forall k | k in rows
      ensures TooLate(t, k, w, legacy) <==>
        exists b :: b in t.buckets && k.island == b.island && k.guid == b.guid && b.ts <= k.ts < b.ts + t.buckets[b].width
    {
      TooLateIff(t, k, rawCutoff, w, legacy);
    }
    hide TooLate, Legacy, NoneCut, Binned;
  }

  /** A sample that is not older than the last raw cutoff is never too late. */
  lemma InTimeIsNotTooLate(t: Tables, k: RowKey, rawCutoff: int, bucketCutoff: int, w: int, legacy: int)
    requires Legacy(legacy, w) && Compacted(t, rawCutoff, bucketCutoff, w, legacy) && NoneCut(rawCutoff, bucketCutoff, w, legacy)
    requires k.ts >= 0 && k.ts >= rawCutoff
    ensures !TooLate(t, k, w, legacy)
  {
    hide TooLate, NoneCut;
    WindowsEnd(t, rawCutoff, bucketCutoff, w, legacy);
    TooLateIff(t, k, rawCutoff, w, legacy);
  }

  // --- the life of a database ---

  /** Measurements are not older than the epoch. */
  ghost predicate Measured(changes: seq<Change>) {
    forall c :: c in changes && c.Write? ==> SinceEpoch(c.rows)
  }

  /** No compaction is later than now. */
  ghost predicate Until(changes: seq<Change>, now: Time) {
    forall c :: c in changes && c.Compact? ==> c.now <= now
  }

  /** The time that compactions are measured against never runs backwards. */
  ghost predicate TimesAdvance(changes: seq<Change>) {
    forall i, j :: 0 <= i < j < |changes| && changes[i].Compact? && changes[j].Compact? ==> changes[i].now <= changes[j].now
  }

  /** The buckets found at the start lie below the cutoffs of all compactions. */
  ghost predicate StartsBinned(o: Options, start: Tables, changes: seq<Change>, legacy: int)
    requires Legacy(legacy, Width(o))
  {
    forall c :: c in changes && c.Compact? ==> Binned(start, RawCutoff(o, c.now), Width(o), legacy)
  }

  lemma BinnedLater(t: Tables, earlier: int, later: int, w: int, legacy: int)
    requires Legacy(legacy, w) && Binned(t, earlier, w, legacy) && earlier <= later
    ensures Binned(t, later, w, legacy)
  {
  }

  lemma WriteKeepsBinned(t: Tables, rows: map<RowKey, Row>, cutoff: int, w: int, legacy: int)
    requires Legacy(legacy, w) && Binned(t, cutoff, w, legacy) && SinceEpoch(rows)
    ensures Binned(t.(sample := t.sample + rows), cutoff, w, legacy)
  {
  }

  /** Samples and any number of compactions leave the buckets binned for every time not before the compactions. */
  lemma {:induction false} LifeIsBinned(o: Options, start: Tables, changes: seq<Change>, states: seq<Tables>, now: Time,
                                        legacy: int)
    requires Legacy(legacy, Width(o)) && IsLife(o, start, changes, states) && Measured(changes) && TimesAdvance(changes)
    requires Until(changes, now) && StartsBinned(o, start, changes, legacy)
    requires Binned(start, RawCutoff(o, now), Width(o), legacy)
    ensures Binned(states[|changes|], RawCutoff(o, now), Width(o), legacy)
    decreases |changes|
  {
    if changes != [] {
      hide Folds, Binned, Width, RawCutoff, BucketCutoff, Legacy, SinceEpoch;
      var last := |changes| - 1;
      var c := changes[last];
      LifePrefix(o, start, changes, states, last);
      assert c in changes && forall x :: x in changes[..last] ==> x in changes;
      assert Changes(o, states[last], c, states[|changes|]);
      match c
      case Write(rows) =>
        LifeIsBinned(o, start, changes[..last], states[..|changes|], now, legacy);
        WriteKeepsBinned(states[last], rows, RawCutoff(o, now), Width(o), legacy);
      case Compact(at) =>
        LifeIsBinned(o, start, changes[..last], states[..|changes|], at, legacy);
        BinnedPersists(states[last], states[|changes|], RawCutoff(o, at), BucketCutoff(o, at), Width(o), legacy);
        CutoffsAdvance(o, at, now);
        BinnedLater(states[|changes|], RawCutoff(o, at), RawCutoff(o, now), Width(o), legacy);
    }
  }

  /** The change at n is a compaction at this time, and only samples come behind it. */
  ghost predicate LastCompaction(changes: seq<Change>, n: nat, now: Time) {
    n < |changes| && changes[n] == Compact(now) && forall i :: n < i < |changes| ==> changes[i].Write?
  }

  /** The rows written from the n-th change on, with nothing else in between. */
  ghost function WrittenFrom(changes: seq<Change>, n: nat): map<RowKey, Row>
    requires n <= |changes|
  {
    Ever(changes[n..])
  }

  lemma {:induction false} OnlyWritten(o: Options, start: Tables, changes: seq<Change>, states: seq<Tables>, n: nat)
    requires IsLife(o, start, changes, states) && n <= |changes| && forall i :: n <= i < |changes| ==> changes[i].Write?
    ensures states[|changes|] == states[n].(sample := states[n].sample + WrittenFrom(changes, n))
    decreases |changes|
  {
    if n == |changes| {
      assert changes[n..] == [] && states[n].sample + map[] == states[n].sample;
    } else {
      var last := |changes| - 1;
      LifePrefix(o, start, changes, states, last);
      assert Changes(o, states[last], changes[last], states[|changes|]);
      hide IsLife;
      OnlyWritten(o, start, changes[..last], states[..|changes|], n);
      assert changes[n..][..|changes[n..]| - 1] == changes[..last][n..] && changes[n..][|changes[n..]| - 1] == changes[last];
      RowsJoin(states[n].sample, Ever(changes[..last][n..]), changes[last].rows);
    }
  }

  lemma RowsJoin(a: map<RowKey, Row>, b: map<RowKey, Row>, c: map<RowKey, Row>)
    ensures (a + b) + c == a + (b + c)
  {
  }

  /** The keys of these rows are those written by the changes. */
  ghost predicate Collects(rows: map<RowKey, Row>, changes: seq<Change>) {
    forall k :: k in rows <==> exists c :: c in changes && c.Write? && k in c.rows
  }

  lemma {:induction false} WrittenIn(changes: seq<Change>)
    requires forall c :: c in changes ==> c.Write?
    ensures Collects(Ever(changes), changes)
    decreases |changes|
  {
    if changes != [] {
      var init, last := changes[..|changes| - 1], changes[|changes| - 1];
      assert changes == init + [last];
      WrittenIn(init);
    }
  }

  lemma CompactedThere(o: Options, start: Tables, changes: seq<Change>, states: seq<Tables>, n: nat, now: Time, legacy: int)
    requires Legacy(legacy, Width(o)) && IsLife(o, start, changes, states) && Measured(changes) && TimesAdvance(changes)
    requires StartsBinned(o, start, changes, legacy) && n < |changes| && changes[n] == Compact(now)
    ensures Compacted(states[n + 1], RawCutoff(o, now), BucketCutoff(o, now), Width(o), legacy)
  {
    LifePrefix(o, start, changes, states, n);
    assert changes[n] in changes && forall c :: c in changes[..n] ==> c in changes;
    assert Changes(o, states[n], changes[n], states[n + 1]);
    hide IsLife, Folds, Binned, Compacted, Width, RawCutoff, BucketCutoff, Legacy;
    LifeIsBinned(o, start, changes[..n], states[..n + 1], now, legacy);
    CompactionCompacts(states[n], states[n + 1], RawCutoff(o, now), BucketCutoff(o, now), Width(o), legacy);
  }

  /** What the last compaction of a life has left, and what was written since. */
  lemma LastLeaves(o: Options, start: Tables, changes: seq<Change>, states: seq<Tables>, n: nat, now: Time, legacy: int)
    requires Legacy(legacy, Width(o)) && IsLife(o, start, changes, states) && Measured(changes) && TimesAdvance(changes)
    requires StartsBinned(o, start, changes, legacy) && LastCompaction(changes, n, now)
    ensures Compacted(states[n + 1], RawCutoff(o, now), BucketCutoff(o, now), Width(o), legacy)
    ensures states[|changes|] == states[n + 1].(sample := states[n + 1].sample + WrittenFrom(changes, n + 1))
    ensures SinceEpoch(WrittenFrom(changes, n + 1))
    ensures Collects(WrittenFrom(changes, n + 1), changes[n + 1..])
  {
    hide Compacted, StartsBinned, TimesAdvance, Width, RawCutoff, BucketCutoff, Legacy, Changes, Ever;
    CompactedThere(o, start, changes, states, n, now, legacy);
    OnlyWritten(o, start, changes, states, n + 1);
    assert forall c :: c in changes[n + 1..] ==> c in changes && c.Write?;
    WrittenIn(changes[n + 1..]);
  }

  /** At every moment of a life behind a compaction that cuts no window: no raw row lies in a bucket's window exactly when
      no sample written since was too late. */
  lemma LifeIsDisjointIff(o: Options, start: Tables, changes: seq<Change>, states: seq<Tables>, n: nat, now: Time, legacy: int)
    requires Legacy(legacy, Width(o)) && IsLife(o, start, changes, states) && Measured(changes) && TimesAdvance(changes)
    requires StartsBinned(o, start, changes, legacy) && LastCompaction(changes, n, now)
    requires NoneCut(RawCutoff(o, now), BucketCutoff(o, now), Width(o), legacy)
    ensures WindowsDisjoint(states[|changes|])
      <==> forall c, k :: c in changes[n + 1..] && k in c.rows ==> !TooLate(states[n + 1], k, Width(o), legacy)
  {
    LastLeaves(o, start, changes, states, n, now, legacy);
    assert forall c :: c in changes[n + 1..] ==> c.Write?;
    hide Compacted, NoneCut, TooLate, WindowsDisjoint, Width, RawCutoff, BucketCutoff, Legacy, IsLife, StartsBinned, WrittenFrom;
    LateSamplesIff(states[n + 1], WrittenFrom(changes, n + 1), RawCutoff(o, now), BucketCutoff(o, now), Width(o), legacy);
  }

  /** Nothing was written since the n-th change that is older than this. */
  ghost predicate InTime(changes: seq<Change>, n: nat, cutoff: int)
    requires n < |changes|
  {
    forall c, k :: c in changes[n + 1..] && c.Write? && k in c.rows ==> k.ts >= cutoff
  }

  /** At every moment of every life whose last compaction was at this time, as long as samples come in time. */
  ghost predicate AlwaysApart(o: Options, start: Tables, now: Time) {
    forall changes: seq<Change>, states: seq<Tables>, n: nat ::
      && IsLife(o, start, changes, states) && Measured(changes) && TimesAdvance(changes)
      && LastCompaction(changes, n, now) && InTime(changes, n, RawCutoff(o, now))
      ==> WindowsDisjoint(states[|changes|])
  }

  lemma NewStartsBinned(o: Options, changes: seq<Change>)
    requires Width(o) > 0
    ensures StartsBinned(o, NEW_DATABASE, changes, Width(o))
  {
    hide Width;
  }

  /** While samples come in time, windows stay disjoint behind a compaction that cuts none. */
  lemma InTimeIsApart(o: Options, start: Tables, changes: seq<Change>, states: seq<Tables>, n: nat, now: Time, legacy: int)
    requires Legacy(legacy, Width(o)) && IsLife(o, start, changes, states) && Measured(changes) && TimesAdvance(changes)
    requires StartsBinned(o, start, changes, legacy) && LastCompaction(changes, n, now)
    requires NoneCut(RawCutoff(o, now), BucketCutoff(o, now), Width(o), legacy)
    requires InTime(changes, n, RawCutoff(o, now))
    ensures WindowsDisjoint(states[|changes|])
  {
    hide Width, RawCutoff, BucketCutoff, NoneCut, TooLate, WindowsDisjoint, Changes, TimesAdvance, StartsBinned, Compacted,
      Legacy;
    LastLeaves(o, start, changes, states, n, now, legacy);
    LifeIsDisjointIff(o, start, changes, states, n, now, legacy);
    forall c, k | c in changes[n + 1..] && k in c.rows ensures !TooLate(states[n + 1], k, Width(o), legacy) {
      assert c in changes;
      InTimeIsNotTooLate(states[n + 1], k, RawCutoff(o, now), BucketCutoff(o, now), Width(o), legacy);
    }
  }

  lemma LivesAreApart(o: Options, now: Time)
    requires Width(o) > 0 && NotCut(RawCutoff(o, now), BucketCutoff(o, now), Width(o))
    ensures AlwaysApart(o, NEW_DATABASE, now)
  {
    assert Legacy(Width(o), Width(o));
    hide Width, RawCutoff, BucketCutoff, NotCut, WindowsDisjoint, Changes, TimesAdvance, StartsBinned, Measured, InTime,
      LastCompaction, Legacy;
    forall changes: seq<Change>, states: seq<Tables>, n: nat
      | IsLife(o, NEW_DATABASE, changes, states) && Measured(changes) && TimesAdvance(changes)
        && LastCompaction(changes, n, now) && n < |changes| && InTime(changes, n, RawCutoff(o, now))
      ensures WindowsDisjoint(states[|changes|])
    {
      NewStartsBinned(o, changes);
      InTimeIsApart(o, NEW_DATABASE, changes, states, n, now, Width(o));
    }
  }

  /** Two samples written, one on either side of a cutoff, and one compaction. */
  lemma StraddlingLife(o: Options, now: Time, after: Tables) returns (changes: seq<Change>, states: seq<Tables>)
    requires RawCutoff(o, now) > 0 && Compacts(Tables(Straddling(RawCutoff(o, now)), map[]), o, now, after)
    ensures IsLife(o, NEW_DATABASE, changes, states) && Measured(changes) && TimesAdvance(changes)
    ensures LastCompaction(changes, 1, now) && InTime(changes, 1, RawCutoff(o, now)) && states[|changes|] == after
  {
    var rows := Straddling(RawCutoff(o, now));
    assert SinceEpoch(rows);
    hide Compacts, RawCutoff, SinceEpoch, Straddling;
    changes, states := [Write(rows), Compact(now)], [NEW_DATABASE, Tables(rows, map[]), after];
    assert map[] + rows == rows;
    assert Changes(o, states[0], changes[0], states[1]) && Changes(o, states[1], changes[1], states[2]);
    assert changes[1 + 1..] == [];
  }

  lemma CutShowsInALife(o: Options, now: Time)
    requires Width(o) > 0 && !NotCut(RawCutoff(o, now), BucketCutoff(o, now), Width(o))
    ensures !AlwaysApart(o, NEW_DATABASE, now)
  {
    hide Folds, Width, RawCutoff, BucketCutoff, WindowsDisjoint, IsLife, Measured, TimesAdvance, LastCompaction, InTime;
    var after := FoldExists(Tables(Straddling(RawCutoff(o, now)), map[]), RawCutoff(o, now), BucketCutoff(o, now), Width(o));
    StraddlingOverlaps(RawCutoff(o, now), BucketCutoff(o, now), Width(o), after);
    var changes, states := StraddlingLife(o, now, after);
  }

  /** Over every life of a database from its creation on, with any number of writes and compactions before: from a
      compaction on, and until a sample arrives that is older than its raw cutoff, no raw row lies in a bucket's window
      exactly when that cutoff does not cut a window that is kept. */
  lemma AlwaysApartIff(o: Options, now: Time)
    requires Width(o) > 0
    ensures AlwaysApart(o, NEW_DATABASE, now) <==> NotCut(RawCutoff(o, now), BucketCutoff(o, now), Width(o))
  {
    hide AlwaysApart, NotCut;
    if NotCut(RawCutoff(o, now), BucketCutoff(o, now), Width(o)) {
      LivesAreApart(o, now);
    } else {
      CutShowsInALife(o, now);
    }
  }

  /** A late sample: its window is folded, and the cutoff cuts no window. */
  lemma LateSampleOverlaps(o: Options, now: Time) returns (changes: seq<Change>, states: seq<Tables>)
    requires Width(o) > 1 && RawCutoff(o, now) == Width(o) && BucketCutoff(o, now) <= 0
    ensures changes == [Write(SAME_ROW), Compact(now), Write(map[RowKey(0, 0, 1) := SOME_ROW])]
    ensures IsLife(o, NEW_DATABASE, changes, states) && LastCompaction(changes, 1, now)
    ensures NotCut(RawCutoff(o, now), BucketCutoff(o, now), Width(o)) && !WindowsDisjoint(states[3])
  {
    var late := map[RowKey(0, 0, 1) := SOME_ROW];
    var t := Tables(SAME_ROW, map[]);
    var after := FirstFolded(o, now);
    changes, states := [Write(SAME_ROW), Compact(now), Write(late)], [NEW_DATABASE, t, after, after.(sample := late)];
    assert map[] + SAME_ROW == SAME_ROW && map[] + late == late;
    hide Compacts, Width, BucketCutoff, RawCutoff;
    assert Changes(o, states[0], changes[0], states[1]) && Changes(o, states[1], changes[1], states[2])
        && Changes(o, states[2], changes[2], states[3]);
    assert SOME_KEY in states[3].buckets && RowKey(0, 0, 1) in states[3].sample;
  }
}
