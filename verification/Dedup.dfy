/** A good listed more than once in one message: four places keep the later entry, each in its own way. */
module Dedup {
  import opened Model
  import opened Sorting
  import opened HistoryTables
  import Compaction

  type Products = seq<ProductStat>

  /** Where the good is listed last, or -1. */
  function LastIndex(s: Products, guid: int32): (i: int)
    ensures -1 <= i < |s|
    ensures i >= 0 ==> s[i].guid == guid
    ensures forall j :: i < j < |s| ==> s[j].guid != guid
  {
    if s == [] then -1
    else if s[|s| - 1].guid == guid then |s| - 1
    else LastIndex(s[..|s| - 1], guid)
  }

  function LastEntry(s: Products, guid: int32): Option<ProductStat> {
    var i := LastIndex(s, guid);
    if i < 0 then None else Some(s[i])
  }

  predicate IsLast(s: Products, i: nat)
    requires i < |s|
  {
    LastIndex(s, s[i].guid) == i
  }

  function Kept(s: Products, n: nat): Products
    requires n <= |s|
  {
    if n == 0 then [] else Kept(s, n - 1) + if IsLast(s, n - 1) then [s[n - 1]] else []
  }

  /** One entry per good: the later one, where it was sent. */
  function Collapsed(s: Products): Products { Kept(s, |s|) }

  lemma KeptNone(s: Products)
    ensures Kept(s, 0) == []
  {
  }

  lemma KeptNext(s: Products, i: nat)
    requires i < |s|
    ensures Kept(s, i + 1) == Kept(s, i) + if IsLast(s, i) then [s[i]] else []
    ensures LastIndex(s, s[i].guid) >= 0
  {
  }

  lemma {:induction false} KeptByGuid(s: Products, n: nat, guid: int32)
    requires n <= |s|
    ensures var i := LastIndex(s, guid);
      ByKey(Kept(s, n), GuidOf, guid) == if 0 <= i < n then [s[i]] else []
  {
    hide LastIndex, ByKey, Kept, IsLast;
    KeptNone(s);
    NoneOwn(guid);
    if n > 0 {
      KeptByGuid(s, n - 1, guid);
      KeptNext(s, n - 1);
      OwnLast(s, n - 1, guid);
      var more := if IsLast(s, n - 1) then [s[n - 1]] else [];
      OnlyOwn(s[n - 1], IsLast(s, n - 1), guid);
      ByKeyAppend(Kept(s, n - 1), more, GuidOf, guid);
    }
  }

  lemma NoneOwn(guid: int32)
    ensures ByKey([], GuidOf, guid) == []
  {
  }

  lemma OwnLast(s: Products, i: nat, guid: int32)
    requires i < |s|
    ensures IsLast(s, i) && s[i].guid == guid <==> LastIndex(s, guid) == i
    ensures -1 <= LastIndex(s, guid) < |s|
  {
  }

  lemma OnlyOwn(p: ProductStat, kept: bool, guid: int32)
    ensures var more := if kept then [p] else [];
      ByKey(more, GuidOf, guid) == if p.guid == guid then more else []
  {
    assert [p][1..] == [];
  }

  /** Collapsing keeps, of every good, exactly its last entry. */
  lemma CollapsedHoldsLast(s: Products, guid: int32)
    ensures ByKey(Collapsed(s), GuidOf, guid) == OptionList(LastEntry(s, guid))
  {
    KeptByGuid(s, |s|, guid);
  }

  /** The entries kept stand in the order in which they were sent. */
  lemma {:induction false} KeptInOrder(s: Products, n: nat)
    requires n <= |s|
    ensures forall i :: 0 <= i < |Kept(s, n)| ==>
      0 <= LastIndex(s, Kept(s, n)[i].guid) < n && s[LastIndex(s, Kept(s, n)[i].guid)] == Kept(s, n)[i]
    ensures forall i, j :: 0 <= i < j < |Kept(s, n)| ==> LastIndex(s, Kept(s, n)[i].guid) < LastIndex(s, Kept(s, n)[j].guid)
  {
    if n > 0 {
      KeptInOrder(s, n - 1);
    }
  }

  lemma CollapseKeepsOrder(s: Products, i: nat, j: nat)
    requires i < j < |Collapsed(s)|
    ensures var c := Collapsed(s);
      && LastIndex(s, c[i].guid) < LastIndex(s, c[j].guid)
      && LastEntry(s, c[i].guid) == Some(c[i]) && LastEntry(s, c[j].guid) == Some(c[j])
  {
    KeptInOrder(s, |s|);
  }

  /** An entry with no later one of the same good. */
  predicate LastOfGood(all: Products, i: nat)
    requires i < |all|
  {
    forall j :: i < j < |all| ==> all[j].guid != all[i].guid
  }

  /** One entry per good: the last one of each, in the order in which they were sent. */
  ghost predicate KeepsLast(all: Products, kept: Products) {
    && (forall i :: 0 <= i < |all| && LastOfGood(all, i) ==> all[i] in kept)
    && exists at: seq<nat> :: |at| == |kept| && PicksLast(all, kept, at)
  }

  ghost predicate PicksLast(all: Products, kept: Products, at: seq<nat>)
    requires |at| == |kept|
  {
    && (forall a :: 0 <= a < |at| ==> at[a] < |all| && LastOfGood(all, at[a]) && kept[a] == all[at[a]])
    && forall a, b :: 0 <= a < b < |at| ==> at[a] < at[b]
  }

  lemma LastIff(s: Products, i: nat)
    requires i < |s|
    ensures IsLast(s, i) <==> LastOfGood(s, i)
  {
  }

  lemma {:induction false} KeptPicks(s: Products, n: nat) returns (at: seq<nat>)
    requires n <= |s|
    ensures |at| == |Kept(s, n)| && PicksLast(s, Kept(s, n), at) && forall i :: i in at ==> i < n
    ensures forall i :: 0 <= i < n && LastOfGood(s, i) ==> s[i] in Kept(s, n)
  {
    hide Kept, IsLast, LastOfGood, LastIndex, PicksLast;
    KeptNone(s);
    if n == 0 {
      at := [];
      PicksNone(s);
    } else {
      at := KeptPicks(s, n - 1);
      LastIff(s, n - 1);
      KeptNext(s, n - 1);
      assert Kept(s, n - 1) + [] == Kept(s, n - 1);
      if IsLast(s, n - 1) {
        PicksMore(s, Kept(s, n - 1), at, n - 1);
        at := at + [n - 1];
      }
    }
  }

  lemma PicksNone(s: Products)
    ensures PicksLast(s, [], [])
  {
  }

  lemma PicksMore(s: Products, kept: Products, at: seq<nat>, i: nat)
    requires |at| == |kept| && PicksLast(s, kept, at) && (forall a :: a in at ==> a < i) && i < |s| && LastOfGood(s, i)
    ensures PicksLast(s, kept + [s[i]], at + [i])
  {
    hide LastOfGood;
    assert forall a :: 0 <= a < |at| ==> at[a] in at;
  }

  /** Collapsing keeps the last entry of every good and nothing else, in the order sent. */
  lemma CollapsedKeepsLast(s: Products)
    ensures KeepsLast(s, Collapsed(s))
  {
    hide LastOfGood, PicksLast;
    var at := KeptPicks(s, |s|);
  }

  /** The entries that a later one of their good replaces. */
  ghost function SupersededIn(s: Products): set<nat> { set i: nat | i < |s| && !LastOfGood(s, i) }

  lemma {:induction false} SupersededBelow(s: Products, n: nat)
    requires n <= |s|
    ensures |Kept(s, n)| + |set i: nat | i < n && !LastOfGood(s, i)| == n
  {
    hide LastOfGood, IsLast;
    KeptNone(s);
    if n > 0 {
      SupersededBelow(s, n - 1);
      KeptNext(s, n - 1);
      LastIff(s, n - 1);
      var before, now := (set i: nat | i < n - 1 && !LastOfGood(s, i)), (set i: nat | i < n && !LastOfGood(s, i));
      assert now == before + if LastOfGood(s, n - 1) then {} else {n - 1};
    }
  }

  lemma SupersededAre(s: Products)
    ensures |SupersededIn(s)| == |s| - |Collapsed(s)|
  {
    SupersededBelow(s, |s|);
  }

  lemma {:induction false} LastOfKey(s: Products, guid: int32)
    ensures var own := ByKey(s, GuidOf, guid);
      LastEntry(s, guid) == if own == [] then None else Some(own[|own| - 1])
  {
    if s != [] {
      var init, last := s[..|s| - 1], s[|s| - 1];
      LastOfKey(init, guid);
      assert s == init + [last];
      ByKeyAppend(init, [last], GuidOf, guid);
      assert ByKey([last], GuidOf, guid) == if last.guid == guid then [last] else [];
    }
  }

  // --- the sorted copy ---

  function SortedProducts(s: Products): Products { Collapsed(StableSort(s, GuidOf, GuidLeq)) }

  lemma SortedHoldsLast(s: Products, guid: int32)
    ensures ByKey(SortedProducts(s), GuidOf, guid) == OptionList(LastEntry(s, guid))
  {
    hide StableSort, Collapsed, LastEntry;
    var sorted := StableSort(s, GuidOf, GuidLeq);
    StableSortCorrect(s, GuidOf, GuidLeq);
    CollapsedHoldsLast(sorted, guid);
    LastOfKey(sorted, guid);
    LastOfKey(s, guid);
  }

  lemma CollapsedStrict(s: Products)
    requires Sorted(s, GuidOf, GuidLeq)
    ensures StrictlySorted(Collapsed(s), GuidOf, GuidLeq)
  {
    KeptInOrder(s, |s|);
    var c := Collapsed(s);
    hide Kept;
    forall i, j | 0 <= i < j < |c| ensures GuidLeq(GuidOf(c[i]), GuidOf(c[j])) && GuidOf(c[i]) != GuidOf(c[j]) {
      var a, b := LastIndex(s, c[i].guid), LastIndex(s, c[j].guid);
      assert GuidLeq(GuidOf(s[a]), GuidOf(s[b]));
    }
  }

  lemma SortedIsStrict(s: Products)
    ensures StrictlySorted(SortedProducts(s), GuidOf, GuidLeq)
  {
    hide StableSort, Collapsed;
    StableSortCorrect(s, GuidOf, GuidLeq);
    CollapsedStrict(StableSort(s, GuidOf, GuidLeq));
  }

  /** Sorting what was collapsed gives the same list as sorting what was sent. */
  lemma SortedIgnoresCollapse(s: Products)
    ensures SortedProducts(Collapsed(s)) == SortedProducts(s)
  {
    hide SortedProducts, Collapsed, StrictlySorted;
    SortedIsStrict(s);
    SortedIsStrict(Collapsed(s));
    forall guid: int32
      ensures ByKey(SortedProducts(Collapsed(s)), GuidOf, guid) == ByKey(SortedProducts(s), GuidOf, guid)
    {
      SortedHoldsLast(Collapsed(s), guid);
      CollapsedHoldsLast(s, guid);
      LastOfKey(Collapsed(s), guid);
      SortedHoldsLast(s, guid);
    }
    SameMembers(SortedProducts(Collapsed(s)), SortedProducts(s), GuidOf);
    StrictlySortedUnique(SortedProducts(Collapsed(s)), SortedProducts(s), GuidOf, GuidLeq);
  }

  // --- the row left by INSERT OR REPLACE ---

  lemma {:induction false} ReplaceHoldsLast(samples: map<Compaction.RowKey, SampleRow>, island: RowId, ts: int, s: Products,
                                            gameTs: int64, guid: int32)
    ensures
      var key, after := Compaction.RowKey(island, guid, ts), ReplaceAll(samples, island, ts, s, gameTs);
      match LastEntry(s, guid)
      case None => (key in after <==> key in samples) && (key in after ==> after[key] == samples[key])
      case Some(p) => key in after && after[key] == SampleRow(p, gameTs)
  {
    if s != [] {
      ReplaceHoldsLast(samples, island, ts, s[..|s| - 1], gameTs, guid);
    }
  }

  /** All four agree, for every list and every good: the collapsed message, the sorted copy, the backward search and
      the row left by successive replacements hold the same entry, or none of them holds one. */
  lemma AllAgree(s: Products, guid: int32, island: RowId, ts: int, gameTs: int64)
    ensures
      var key, rows := Compaction.RowKey(island, guid, ts), ReplaceAll(map[], island, ts, s, gameTs);
      match LastEntry(s, guid)
      case None =>
        ByKey(Collapsed(s), GuidOf, guid) == [] && ByKey(SortedProducts(s), GuidOf, guid) == [] && key !in rows
      case Some(p) =>
        && ByKey(Collapsed(s), GuidOf, guid) == [p]
        && ByKey(SortedProducts(s), GuidOf, guid) == [p]
        && key in rows && rows[key].entry == p
  {
    hide Collapsed, SortedProducts, LastEntry, ReplaceAll, ByKey;
    CollapsedHoldsLast(s, guid);
    SortedHoldsLast(s, guid);
    ReplaceHoldsLast(map[], island, ts, s, gameTs, guid);
  }

  // --- as the program does it ---

  method FindLast(s: Products, guid: int32) returns (p: Option<ProductStat>)
    ensures p == LastEntry(s, guid)
  {
    var i := |s| - 1;
    while i >= 0
      invariant -1 <= i < |s|
      invariant forall j :: i < j < |s| ==> s[j].guid != guid
    {
      if s[i].guid == guid {
        return Some(s[i]);
      }
      i := i - 1;
    }
    return None;
  }

  function GuidsKept(s: Products, n: nat): set<int32>
    requires n <= |s|
  {
    if n == 0 then {} else GuidsKept(s, n - 1) + if IsLast(s, n - 1) then {s[n - 1].guid} else {}
  }

  lemma {:induction false} GuidsKeptAre(s: Products, n: nat)
    requires n <= |s|
    ensures forall g: int32 :: g in GuidsKept(s, n) <==> 0 <= LastIndex(s, g) < n
  {
    if n > 0 { GuidsKeptAre(s, n - 1); }
  }

  lemma GuidIsNew(s: Products, n: nat)
    requires n < |s| && IsLast(s, n)
    ensures s[n].guid !in GuidsKept(s, n)
  {
    GuidsKeptAre(s, n);
  }

  lemma {:induction false} KeptCount(s: Products, n: nat)
    requires n <= |s|
    ensures |Kept(s, n)| == |GuidsKept(s, n)| <= n
  {
    hide IsLast;
    if n > 0 {
      KeptCount(s, n - 1);
      if IsLast(s, n - 1) { GuidIsNew(s, n - 1); }
      assert Kept(s, n) == Kept(s, n - 1) + if IsLast(s, n - 1) then [s[n - 1]] else [];
      assert GuidsKept(s, n) == GuidsKept(s, n - 1) + if IsLast(s, n - 1) then {s[n - 1].guid} else {};
      hide Kept, GuidsKept;
    }
  }

  /** Keeping as many entries as there are is keeping them all. */
  lemma {:induction false} KeptAll(s: Products, n: nat)
    requires n <= |s|
    ensures |Kept(s, n)| <= n
    ensures |Kept(s, n)| == n ==> Kept(s, n) == s[..n]
  {
    hide IsLast;
    if n > 0 {
      KeptAll(s, n - 1);
      assert s[..n] == s[..n - 1] + [s[n - 1]];
    }
  }

  method LastIndices(a: array<ProductStat>) returns (last: map<int32, int>)
    ensures forall g :: g in last <==> LastIndex(a[..], g) >= 0
    ensures forall g :: g in last ==> last[g] == LastIndex(a[..], g)
  {
    last := map[];
    for i := 0 to a.Length
      invariant forall g :: g in last <==> LastIndex(a[..i], g) >= 0
      invariant forall g :: g in last ==> last[g] == LastIndex(a[..i], g)
    {
      assert a[..i + 1] == a[..i] + [a[i]];
      last := last[a[i].guid := i];
      forall g: int32
        ensures LastIndex(a[..i + 1], g) == if g == a[i].guid then i else LastIndex(a[..i], g)
      {
        assert a[..i + 1][..i] == a[..i];
      }
    }
    assert a[..a.Length] == a[..];
  }

  lemma DistinctCount(s: Products, guids: set<int32>)
    requires forall g :: g in guids <==> LastIndex(s, g) >= 0
    ensures |Collapsed(s)| == |guids| <= |s|
    ensures |guids| == |s| ==> Collapsed(s) == s
  {
    KeptCount(s, |s|);
    KeptAll(s, |s|);
    GuidsKeptAre(s, |s|);
    assert guids == GuidsKept(s, |s|);
    assert s[..|s|] == s;
  }

  method KeepLast(a: array<ProductStat>, last: map<int32, int>) returns (n: nat)
    requires forall g :: g in last <==> LastIndex(a[..], g) >= 0
    requires forall g :: g in last ==> last[g] == LastIndex(a[..], g)
    modifies a
    ensures n <= a.Length && a[..n] == Collapsed(old(a[..]))
  {
    hide Kept;
    ghost var was := a[..];
    n := 0;
    KeptNone(was);
    for i := 0 to a.Length
      invariant n <= i && a[..n] == Kept(was, i)
      invariant a[i..] == was[i..]
    {
      assert a[i] == a[i..][0] == was[i];
      KeptNext(was, i);
      if last[a[i].guid] == i {
        a[n] := a[i];
        n := n + 1;
      }
      assert a[i + 1..] == was[i..][1..];
    }
  }

  /** Filters the array in place: a[..n] is what remains, and dropped entries are counted. */
  method CollapseDuplicates(a: array<ProductStat>) returns (n: nat, dropped: nat)
    modifies a
    ensures n <= a.Length && a[..n] == Collapsed(old(a[..])) && dropped == a.Length - n
  {
    var last := LastIndices(a);
    hide Collapsed, LastIndex;
    DistinctCount(a[..], last.Keys);
    assert |last.Keys| == |last|;
    if a.Length - |last| == 0 {
      return a.Length, 0;
    }
    n := KeepLast(a, last);
    dropped := a.Length - |last|;
  }

  /** In a sorted list the last entry of a good is the last of its run. */
  lemma RunEnds(s: Products, i: nat)
    requires Sorted(s, GuidOf, GuidLeq) && i < |s|
    ensures IsLast(s, i) <==> i + 1 == |s| || s[i + 1].guid != s[i].guid
  {
    var last := LastIndex(s, s[i].guid);
    if i + 1 < |s| && last > i {
      assert GuidLeq(GuidOf(s[i]), GuidOf(s[i + 1]));
      assert i + 1 < last ==> GuidLeq(GuidOf(s[i + 1]), GuidOf(s[last]));
    }
  }

  /** Compacts a sorted array in place: of equal neighbours the last one stays. */
  method CompactRuns(out: array<ProductStat>) returns (kept: nat)
    requires Sorted(out[..], GuidOf, GuidLeq)
    modifies out
    ensures kept <= out.Length && out[..kept] == Collapsed(old(out[..]))
  {
    hide Kept, Sorted, IsLast;
    ghost var was := out[..];
    kept := 0;
    KeptNone(was);
    for i := 0 to out.Length
      invariant kept <= i && out[..kept] == Kept(was, i)
      invariant out[i..] == was[i..]
    {
      assert out[i] == out[i..][0] == was[i];
      assert i + 1 < out.Length ==> out[i + 1] == out[i..][1] == was[i + 1];
      KeptNext(was, i);
      RunEnds(was, i);
      if !(i + 1 < out.Length && out[i + 1].guid == out[i].guid) {
        out[kept] := out[i];
        kept := kept + 1;
      }
      assert out[i + 1..] == was[i..][1..];
    }
  }

  /** Sorts a copy stably and compacts it. */
  method SortedCopy(products: Products) returns (sorted: Products)
    ensures sorted == SortedProducts(products)
  {
    hide Kept, StableSort, Sorted;
    StableSortCorrect(products, GuidOf, GuidLeq);
    var clone := StableSort(products, GuidOf, GuidLeq);
    var out := new ProductStat[|clone|](i requires 0 <= i < |clone| => clone[i]);
    assert out[..] == clone;
    var kept := CompactRuns(out);
    sorted := out[..kept];
  }
}
