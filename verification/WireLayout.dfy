/** What a payload means, byte by byte: the layout of docs/protocol.md with absolute offsets, and that decoding is exactly
    that. */
module WireLayout {
  import opened Model
  import opened WireFormat

  // --- numbers: little-endian, two's complement ---

  function U32At(b: bytes, i: nat): float32
    requires i + 4 <= |b|
  {
    b[i] as int + 256 * b[i + 1] as int + 65536 * b[i + 2] as int + 16777216 * b[i + 3] as int
  }

  function I32At(b: bytes, i: nat): int32
    requires i + 4 <= |b|
  {
    if b[i + 3] < 128 then U32At(b, i) else U32At(b, i) - 4294967296
  }

  function I64At(b: bytes, i: nat): int64
    requires i + 8 <= |b|
  {
    U32At(b, i) as int + 4294967296 * I32At(b, i + 4) as int
  }

  // --- lists of pairs ---

  /** The key is among the next n pairs. */
  predicate Listed(b: bytes, at: nat, n: nat, key: int)
    requires at + 8 * n <= |b|
    decreases n
  {
    n > 0 && (I32At(b, at) == key || Listed(b, at + 8, n - 1, key))
  }

  /** The sum of all amounts that the next n pairs list under the key. */
  function AmountsOf(b: bytes, at: nat, n: nat, key: int): int
    requires at + 8 * n <= |b|
    decreases n
  {
    if n == 0 then 0
    else (if I32At(b, at) == key then I32At(b, at + 4) else 0) + AmountsOf(b, at + 8, n - 1, key)
  }

  /** Two numbers with the same low 32 bits. */
  predicate SameLow(a: int, b: int) { (a - b) % 4294967296 == 0 }

  /** The pairs have exactly the listed keys, each with the sum of its amounts, wrapped to 32 bits. */
  ghost predicate SumsPairs(b: bytes, at: nat, n: nat, m: map<int32, int32>)
    requires at + 8 * n <= |b|
  {
    && (forall k :: k in m <==> Listed(b, at, n, k))
    && (forall k :: k in m ==> SameLow(m[k], AmountsOf(b, at, n, k)))
  }

  /** A count, not negative, and that many pairs. */
  predicate PairsFitAt(b: bytes, at: nat) {
    at + 4 <= |b| && I32At(b, at) >= 0 && at + 4 + 8 * I32At(b, at) <= |b|
  }

  function PairsEnd(b: bytes, at: nat): (end: nat)
    requires PairsFitAt(b, at)
    ensures end <= |b|
  {
    at + 4 + 8 * I32At(b, at)
  }

  ghost predicate PairsAt(b: bytes, at: nat, m: map<int32, int32>) {
    PairsFitAt(b, at) && SumsPairs(b, at + 4, I32At(b, at), m)
  }

  // --- entries ---

  /** The twelve fixed fields of an entry. */
  predicate FieldsAt(b: bytes, at: nat, p: ProductStat)
    requires at + 48 <= |b|
  {
    && p.guid == I32At(b, at)
    && p.generation == U32At(b, at + 4)
    && p.consumption == U32At(b, at + 8)
    && p.delta == U32At(b, at + 12)
    && p.perfectGeneration == U32At(b, at + 16)
    && p.perfectConsumption == U32At(b, at + 20)
    && p.buildings == I32At(b, at + 24)
    && p.maintenance == I32At(b, at + 28)
    && p.income == U32At(b, at + 32)
    && p.profit == I32At(b, at + 36)
    && p.summedProductivity == U32At(b, at + 40)
    && p.avgProductivity == U32At(b, at + 44)
  }

  predicate EntryFitsAt(b: bytes, at: nat) {
    at + 48 <= |b| && PairsFitAt(b, at + 48) && PairsFitAt(b, PairsEnd(b, at + 48))
  }

  function EntryEnd(b: bytes, at: nat): (end: nat)
    requires EntryFitsAt(b, at)
    ensures at + 56 <= end <= |b|
  {
    PairsEnd(b, PairsEnd(b, at + 48))
  }

  /** The fixed fields, the workforce and the buildings. */
  ghost predicate EntryAt(b: bytes, at: nat, p: ProductStat) {
    && EntryFitsAt(b, at)
    && FieldsAt(b, at, p)
    && PairsAt(b, at + 48, p.workforce)
    && PairsAt(b, PairsEnd(b, at + 48), p.buildingsByGuid)
  }

  ghost predicate EntriesAt(b: bytes, at: nat, products: seq<ProductStat>)
    decreases |products|
  {
    if products == [] then at <= |b|
    else EntryAt(b, at, products[0]) && EntriesAt(b, EntryEnd(b, at), products[1..])
  }

  // --- messages ---

  /** A length byte and that many bytes. */
  predicate StringAt(b: bytes, at: nat, s: bytes) {
    at < |b| && at + 1 + b[at] <= |b| && s == b[at + 1..at + 1 + b[at]]
  }

  ghost predicate StatisticsAt(b: bytes, s: IslandSnapshot) {
    && |b| >= 9 && |b| >= 21 + b[8] as int
    && s.sessionId == b[1] && s.key.island == b[2] && s.areaIndex == b[3]
    && s.key.session == I32At(b, 4)
    && StringAt(b, 8, s.name)
    && var behind: nat := 9 + b[8] as int;
       s.gameTimestamp == I64At(b, behind)
       && |s.products| == I32At(b, behind + 8)
       && EntriesAt(b, behind + 12, s.products)
  }

  /** The message a payload carries; bytes behind it mean nothing. */
  ghost predicate Carries(b: bytes, receivedAt: Time, m: Message) {
    && |b| >= 1
    && match m
       case Version(v) => b[0] == 0 && |b| >= 5 && v == I32At(b, 1)
       case SessionStart(headline) => b[0] == 1 && StringAt(b, 1, headline)
       case SessionEnd => b[0] == 2
       case AreaStatistics(s) => b[0] == 3 && StatisticsAt(b, s) && s.receivedAt == receivedAt
  }

  // --- reading a number ---

  lemma ReadU32(b: bytes, at: nat)
    requires at <= |b|
    ensures ParseU32(b[at..]) == if at + 4 <= |b| then Parsed(U32At(b, at), b[at + 4..]) else Short
  {
    if at + 4 <= |b| {
      assert b[at..][4..] == b[at + 4..];
    }
  }

  lemma ReadI32(b: bytes, at: nat)
    requires at <= |b|
    ensures ParseI32(b[at..]) == if at + 4 <= |b| then Parsed(I32At(b, at), b[at + 4..]) else Short
  {
    ReadU32(b, at);
  }

  lemma ReadI64(b: bytes, at: nat)
    requires at <= |b|
    ensures ParseI64(b[at..]) == if at + 8 <= |b| then Parsed(I64At(b, at), b[at + 8..]) else Short
  {
    if at + 8 <= |b| {
      assert b[at..][4..] == b[at + 4..] && b[at..][8..] == b[at + 8..];
      ReadU32(b, at);
      ReadU32(b, at + 4);
    }
  }

  lemma ReadString(b: bytes, at: nat)
    requires at <= |b|
    ensures
      if at < |b| && at + 1 + b[at] <= |b| then
        ParseString(b[at..]) == Parsed(b[at + 1..at + 1 + b[at]], b[at + 1 + b[at]..])
      else ParseString(b[at..]) == Short
  {
    if at < |b| {
      var n, rest := b[at], b[at + 1..];
      assert b[at..][1..] == rest;
      if n <= |rest| {
        assert rest[..n] == b[at + 1..at + 1 + n] && rest[n..] == b[at + 1 + n..];
      }
    }
  }

  // --- reading pairs ---

  lemma WrapsLow(n: int)
    ensures SameLow(ToInt32(n), n)
  {
  }

  lemma SameLowSum(a: int, x: int, y: int)
    requires SameLow(a, x)
    ensures SameLow(a + y, x + y)
  {
  }

  lemma SameLowChain(a: int, b: int, c: int)
    requires SameLow(a, b) && SameLow(b, c)
    ensures SameLow(a, c)
  {
  }

  /** What n more pairs make of a map: listed keys are added, and every amount counts. */
  ghost predicate AddsPairs(b: bytes, at: nat, n: nat, before: map<int32, int32>, after: map<int32, int32>)
    requires at + 8 * n <= |b|
  {
    && (forall k :: k in after <==> k in before || Listed(b, at, n, k))
    && (forall k :: k in after ==> SameLow(after[k], (if k in before then before[k] else 0) + AmountsOf(b, at, n, k)))
  }

  lemma AmountAdds(before: map<int32, int32>, guid: int32, amount: int32, k: int32, value: int32, rest: int)
    requires k in Accumulate(before, guid, amount) && SameLow(value, Accumulate(before, guid, amount)[k] + rest)
    ensures SameLow(value, (if k in before then before[k] else 0) + ((if guid == k then amount else 0) + rest))
  {
    if k == guid {
      var sum: int := (if k in before then before[k] as int else 0) + amount as int;
      WrapsLow(sum);
      hide ToInt32;
      SameLowSum(ToInt32(sum), sum, rest);
      hide SameLow;
      SameLowChain(value, ToInt32(sum) + rest, sum + rest);
    }
  }

  lemma AddOne(b: bytes, at: nat, n: nat, m: map<int32, int32>, after: map<int32, int32>)
    requires n > 0 && at + 8 * n <= |b|
    requires AddsPairs(b, at + 8, n - 1, Accumulate(m, I32At(b, at), I32At(b, at + 4)), after)
    ensures AddsPairs(b, at, n, m, after)
  {
    var guid, amount := I32At(b, at), I32At(b, at + 4);
    assert forall k :: k in Accumulate(m, guid, amount) <==> k in m || k == guid;
    hide I32At, SameLow, Accumulate;
    forall k | k in after
      ensures SameLow(after[k], (if k in m then m[k] else 0) + AmountsOf(b, at, n, k))
    {
      if k in Accumulate(m, guid, amount) {
        AmountAdds(m, guid, amount, k, after[k], AmountsOf(b, at + 8, n - 1, k));
      }
    }
  }

  /** What reading n more pairs gives. */
  ghost predicate ReadsPairList(b: bytes, at: nat, n: nat, m: map<int32, int32>, p: Parsed<map<int32, int32>>)
    requires at <= |b|
  {
    if at + 8 * n <= |b| then p.Parsed? && p.rest == b[at + 8 * n..] && AddsPairs(b, at, n, m, p.value) else p == Short
  }

  lemma PairFrom(n: nat, b: bytes, at: nat, m: map<int32, int32>)
    requires n > 0 && at <= |b|
    ensures ParsePairList(n, b[at..], m) ==
      if at + 8 <= |b| then ParsePairList(n - 1, b[at + 8..], Accumulate(m, I32At(b, at), I32At(b, at + 4))) else Short
  {
    hide ParseI32, I32At, Accumulate;
    ReadI32(b, at);
    if at + 4 <= |b| { ReadI32(b, at + 4); }
  }

  lemma {:induction false} ReadPairList(b: bytes, at: nat, n: nat, m: map<int32, int32>)
    requires at <= |b|
    ensures ReadsPairList(b, at, n, m, ParsePairList(n, b[at..], m))
    decreases n
  {
    hide ParsePairList, I32At, Accumulate, AddsPairs;
    AddNone(b, at, m);
    if n > 0 {
      PairFrom(n, b, at, m);
      if at + 8 <= |b| {
        var next := Accumulate(m, I32At(b, at), I32At(b, at + 4));
        ReadPairList(b, at + 8, n - 1, next);
        var p := ParsePairList(n - 1, b[at + 8..], next);
        if at + 8 * n <= |b| {
          AddOne(b, at, n, m, p.value);
        }
      }
    }
  }

  lemma AddNone(b: bytes, at: nat, m: map<int32, int32>)
    requires at <= |b|
    ensures AddsPairs(b, at, 0, m, m) && ParsePairList(0, b[at..], m) == Parsed(m, b[at..])
  {
  }

  lemma SumsUnique(b: bytes, at: nat, n: nat, x: map<int32, int32>, y: map<int32, int32>)
    requires at + 8 * n <= |b| && SumsPairs(b, at, n, x) && SumsPairs(b, at, n, y)
    ensures x == y
  {
    hide Listed, AmountsOf;
    forall k | k in x ensures x[k] == y[k] {
      assert SameLow(x[k], y[k]) by { Difference(x[k], y[k], AmountsOf(b, at, n, k)); }
    }
    assert x.Keys == y.Keys;
  }

  lemma Difference(a: int, b: int, sum: int)
    requires SameLow(a, sum) && SameLow(b, sum)
    ensures SameLow(a, b)
  {
  }

  /** For every list of pairs, duplicates included: decoding it gives the listed keys, each with the wrapped sum of its
      amounts, and needs the count and the pairs. */
  lemma ReadPairs(b: bytes, at: nat, m: map<int32, int32>)
    requires at <= |b|
    ensures ParsePairs(b[at..]).Parsed? <==> PairsFitAt(b, at)
    ensures ParsePairs(b[at..]).Parsed? ==>
      ParsePairs(b[at..]).rest == b[PairsEnd(b, at)..] && PairsAt(b, at, ParsePairs(b[at..]).value)
    ensures PairsAt(b, at, m) ==> ParsePairs(b[at..]) == Parsed(m, b[PairsEnd(b, at)..])
  {
    ReadI32(b, at);
    hide ParseI32, I32At, ParsePairList;
    if at + 4 <= |b| {
      var n := I32At(b, at);
      if 0 <= n && at + 4 + 8 * n <= |b| {
        assert n <= |b[at + 4..]| / 8;
        ReadPairList(b, at + 4, n, map[]);
        var p := ParsePairList(n, b[at + 4..], map[]);
        assert ParsePairs(b[at..]) == p;
        AddedToNone(b, at + 4, n, p.value);
        if PairsAt(b, at, m) {
          SumsUnique(b, at + 4, n, m, p.value);
        }
      }
    }
  }

  lemma AddedToNone(b: bytes, at: nat, n: nat, m: map<int32, int32>)
    requires at + 8 * n <= |b| && AddsPairs(b, at, n, map[], m)
    ensures SumsPairs(b, at, n, m)
  {
    hide Listed, AmountsOf, SameLow;
  }

  // --- reading entries ---

  /** The first six fields, and what is behind them. */
  lemma ReadBalance(b: bytes, at: nat)
    requires at <= |b|
    ensures
      if at + 24 <= |b| then
        ParseBalance(b[at..]) == Parsed(
          NO_STAT.(guid := I32At(b, at), generation := U32At(b, at + 4), consumption := U32At(b, at + 8), delta := U32At(b, at + 12),
                   perfectGeneration := U32At(b, at + 16), perfectConsumption := U32At(b, at + 20)), b[at + 24..])
      else ParseBalance(b[at..]) == Short
  {
    hide ParseI32, ParseU32, I32At, U32At;
    ReadI32(b, at);
    if at + 4 <= |b| { ReadU32(b, at + 4); }
    if at + 8 <= |b| { ReadU32(b, at + 8); }
    if at + 12 <= |b| { ReadU32(b, at + 12); }
    if at + 16 <= |b| { ReadU32(b, at + 16); }
    if at + 20 <= |b| { ReadU32(b, at + 20); }
  }

  lemma ReadUpkeep(p: ProductStat, b: bytes, at: nat)
    requires at <= |b|
    ensures
      if at + 24 <= |b| then
        ParseUpkeep(p, b[at..]) == Parsed(
          p.(buildings := I32At(b, at), maintenance := I32At(b, at + 4), income := U32At(b, at + 8), profit := I32At(b, at + 12),
             summedProductivity := U32At(b, at + 16), avgProductivity := U32At(b, at + 20)), b[at + 24..])
      else ParseUpkeep(p, b[at..]) == Short
  {
    hide ParseI32, ParseU32, I32At, U32At;
    ReadI32(b, at);
    if at + 4 <= |b| { ReadI32(b, at + 4); }
    if at + 8 <= |b| { ReadU32(b, at + 8); }
    if at + 12 <= |b| { ReadI32(b, at + 12); }
    if at + 16 <= |b| { ReadU32(b, at + 16); }
    if at + 20 <= |b| { ReadU32(b, at + 20); }
  }

  lemma ReadFixed(b: bytes, at: nat)
    requires at <= |b|
    ensures if at + 48 <= |b| then
        && ParseFixed(b[at..]).Parsed? && ParseFixed(b[at..]).rest == b[at + 48..]
        && FieldsAt(b, at, ParseFixed(b[at..]).value)
        && ParseFixed(b[at..]).value.workforce == map[] && ParseFixed(b[at..]).value.buildingsByGuid == map[]
      else ParseFixed(b[at..]) == Short
  {
    hide ParseBalance, ParseUpkeep, I32At, U32At;
    ReadBalance(b, at);
    if at + 24 <= |b| {
      ReadUpkeep(ParseBalance(b[at..]).value, b, at + 24);
    }
  }

  lemma SameFields(b: bytes, at: nat, p: ProductStat, q: ProductStat)
    requires at + 48 <= |b| && FieldsAt(b, at, p) && FieldsAt(b, at, q)
    ensures q.(workforce := p.workforce, buildingsByGuid := p.buildingsByGuid) == p
  {
    hide I32At, U32At;
  }

  lemma FieldsKept(b: bytes, at: nat, p: ProductStat, workforce: map<int32, int32>, buildings: map<int32, int32>)
    requires at + 48 <= |b| && FieldsAt(b, at, p)
    ensures FieldsAt(b, at, p.(workforce := workforce, buildingsByGuid := buildings))
  {
    hide I32At, U32At;
  }

  /** What reading an entry gives: an entry that is there, and what is behind it, or that none is. */
  ghost predicate ReadsEntry(b: bytes, at: nat, e: Parsed<ProductStat>) {
    match e
    case Short => !EntryFitsAt(b, at)
    case Parsed(p, rest) => EntryAt(b, at, p) && rest == b[EntryEnd(b, at)..]
  }

  lemma EntryFrom(b: bytes, fixed: ProductStat, b1: bytes, workforce: map<int32, int32>, b2: bytes,
                  buildings: map<int32, int32>, b3: bytes)
    requires ParseFixed(b) == Parsed(fixed, b1)
    requires ParsePairs(b1) == Parsed(workforce, b2) && ParsePairs(b2) == Parsed(buildings, b3)
    ensures ParseEntry(b) == Parsed(fixed.(workforce := workforce, buildingsByGuid := buildings), b3)
  {
    hide ParseFixed, ParsePairs;
  }

  lemma NoEntry(b: bytes, fixed: Parsed<ProductStat>, workforce: Parsed<map<int32, int32>>)
    requires fixed == ParseFixed(b)
    requires fixed.Parsed? ==> workforce == ParsePairs(fixed.rest)
    requires fixed.Short? || workforce.Short? || ParsePairs(workforce.rest).Short?
    ensures ParseEntry(b) == Short
  {
    hide ParseFixed, ParsePairs;
  }

  lemma ReadEntry(b: bytes, at: nat)
    requires at <= |b|
    ensures ReadsEntry(b, at, ParseEntry(b[at..]))
  {
    hide ParseEntry, ParseFixed, ParsePairs, PairsAt, PairsFitAt, PairsEnd, FieldsAt;
    ReadFixed(b, at);
    var fixed := ParseFixed(b[at..]);
    if at + 48 > |b| || !PairsFitAt(b, at + 48) {
      if at + 48 <= |b| { ReadPairs(b, at + 48, map[]); }
      NoEntry(b[at..], fixed, if fixed.Parsed? then ParsePairs(fixed.rest) else Short);
    } else {
      ReadPairs(b, at + 48, map[]);
      var workforce, second := ParsePairs(b[at + 48..]), PairsEnd(b, at + 48);
      ReadPairs(b, second, map[]);
      var buildings := ParsePairs(b[second..]);
      if PairsFitAt(b, second) {
        EntryFrom(b[at..], fixed.value, fixed.rest, workforce.value, workforce.rest, buildings.value, buildings.rest);
        FieldsKept(b, at, fixed.value, workforce.value, buildings.value);
      } else {
        NoEntry(b[at..], fixed, workforce);
      }
    }
  }

  lemma EntryUnique(b: bytes, at: nat, p: ProductStat, q: ProductStat)
    requires EntryAt(b, at, p) && EntryAt(b, at, q)
    ensures p == q
  {
    hide ParsePairs, PairsAt, PairsFitAt, PairsEnd, FieldsAt;
    ReadPairs(b, at + 48, p.workforce);
    ReadPairs(b, at + 48, q.workforce);
    ReadPairs(b, PairsEnd(b, at + 48), p.buildingsByGuid);
    ReadPairs(b, PairsEnd(b, at + 48), q.buildingsByGuid);
    SameFields(b, at, p, q);
  }

  lemma EntriesFrom(n: nat, b: bytes, p: ProductStat, b1: bytes, more: seq<ProductStat>, b2: bytes)
    requires n > 0 && ParseEntry(b) == Parsed(p, b1) && ParseEntries(n - 1, b1) == Parsed(more, b2)
    ensures ParseEntries(n, b) == Parsed([p] + more, b2)
  {
    hide ParseEntry;
  }

  lemma NoEntries(n: nat, b: bytes, first: Parsed<ProductStat>)
    requires n > 0 && first == ParseEntry(b)
    requires first.Short? || ParseEntries(n - 1, first.rest).Short?
    ensures ParseEntries(n, b) == Short
  {
    hide ParseEntry;
  }

  lemma EntriesNone(b: bytes, at: nat)
    requires at <= |b|
    ensures ParseEntries(0, b[at..]) == Parsed([], b[at..]) && EntriesAt(b, at, [])
  {
  }

  lemma EntriesJoin(b: bytes, at: nat, p: ProductStat, more: seq<ProductStat>)
    requires EntryAt(b, at, p) && EntriesAt(b, EntryEnd(b, at), more)
    ensures EntriesAt(b, at, [p] + more)
  {
    hide EntryAt, EntryEnd;
    assert ([p] + more)[1..] == more;
  }

  lemma EntriesSplit(b: bytes, at: nat, products: seq<ProductStat>)
    requires products != [] && EntriesAt(b, at, products)
    ensures EntryAt(b, at, products[0]) && EntriesAt(b, EntryEnd(b, at), products[1..])
  {
    hide PairsAt, FieldsAt, EntryFitsAt, EntryEnd;
  }

  ghost predicate ReadsEntries(b: bytes, at: nat, n: nat, e: Parsed<seq<ProductStat>>) {
    e.Parsed? ==> |e.value| == n && EntriesAt(b, at, e.value)
  }

  lemma {:induction false} ReadEntries(b: bytes, at: nat, n: nat)
    requires at <= |b|
    ensures ReadsEntries(b, at, n, ParseEntries(n, b[at..]))
    decreases n
  {
    hide EntriesAt, ParseEntries, ParseEntry, FieldsAt, PairsAt, PairsFitAt, PairsEnd, EntryFitsAt, EntryEnd;
    EntriesNone(b, at);
    if n > 0 {
      ReadEntry(b, at);
      var first := ParseEntry(b[at..]);
      if first.Short? || ParseEntries(n - 1, first.rest).Short? {
        NoEntries(n, b[at..], first);
      } else {
        ReadEntries(b, EntryEnd(b, at), n - 1);
        var more := ParseEntries(n - 1, first.rest);
        EntriesFrom(n, b[at..], first.value, first.rest, more.value, more.rest);
        EntriesJoin(b, at, first.value, more.value);
      }
    }
  }

  /** Entries that are there are read. */
  lemma {:induction false} EntriesRead(b: bytes, at: nat, products: seq<ProductStat>) returns (rest: bytes)
    requires at <= |b| && EntriesAt(b, at, products)
    ensures ParseEntries(|products|, b[at..]) == Parsed(products, rest)
    ensures at + 56 * |products| <= |b|
    decreases |products|
  {
    hide EntriesAt, ParseEntries, ParseEntry, FieldsAt, PairsAt, PairsFitAt, PairsEnd, EntryFitsAt, EntryEnd;
    EntriesNone(b, at);
    if products == [] {
      rest := b[at..];
    } else {
      EntriesSplit(b, at, products);
      ReadEntry(b, at);
      var first := ParseEntry(b[at..]);
      EntryUnique(b, at, products[0], first.value);
      rest := EntriesRead(b, EntryEnd(b, at), products[1..]);
      EntriesFrom(|products|, b[at..], first.value, first.rest, products[1..], rest);
      assert products == [products[0]] + products[1..];
    }
  }

  // --- reading messages ---

  /** An island's snapshot without its products, at the beginning of a payload. */
  ghost predicate HeaderAt(b: bytes, s: IslandSnapshot) {
    && |b| >= 9 && |b| >= 17 + b[8] as int
    && s.sessionId == b[1] && s.key.island == b[2] && s.areaIndex == b[3]
    && s.key.session == I32At(b, 4)
    && StringAt(b, 8, s.name)
    && s.gameTimestamp == I64At(b, 9 + b[8] as int)
  }

  lemma ReadU8(b: bytes, at: nat)
    requires at <= |b|
    ensures ParseU8(b[at..]) == if at < |b| then Parsed(b[at], b[at + 1..]) else Short
  {
    if at < |b| {
      assert b[at..][1..] == b[at + 1..];
    }
  }

  lemma HeaderFrom(b: bytes, receivedAt: Time)
    requires |b| >= 9 && |b| >= 17 + b[8] as int
    ensures var n: nat := b[8] as int;
      ParseHeader(b[1..], receivedAt) == Parsed(
        IslandSnapshot(IslandKey(I32At(b, 4), b[2]), b[1], b[3], b[9..9 + n], receivedAt, I64At(b, 9 + n), []), b[17 + n..])
  {
    hide ParseU8, ParseI32, ParseI64, ParseString, I32At, I64At;
    ReadU8(b, 1);
    ReadU8(b, 2);
    ReadU8(b, 3);
    ReadI32(b, 4);
    ReadString(b, 8);
    ReadI64(b, 9 + b[8] as int);
  }

  lemma NoHeader(b: bytes, receivedAt: Time)
    requires |b| >= 1 && !(|b| >= 9 && |b| >= 17 + b[8] as int)
    ensures ParseHeader(b[1..], receivedAt) == Short
  {
    hide ParseU8, ParseI32, ParseI64, ParseString, I32At, I64At;
    ReadU8(b, 1);
    if |b| >= 2 { ReadU8(b, 2); }
    if |b| >= 3 { ReadU8(b, 3); }
    if |b| >= 4 { ReadI32(b, 4); }
    if |b| >= 8 { ReadString(b, 8); }
    if |b| >= 9 && |b| >= 9 + b[8] as int { ReadI64(b, 9 + b[8] as int); }
  }

  lemma CountFrom(b: bytes, at: nat)
    requires at <= |b|
    ensures ParseCount(b[at..], 56) ==
      if at + 4 <= |b| && 0 <= I32At(b, at) && at + 4 + 56 * I32At(b, at) <= |b| then Parsed(I32At(b, at), b[at + 4..]) else Short
  {
    hide ParseI32, I32At;
    ReadI32(b, at);
    if at + 4 <= |b| {
      var n, rest := I32At(b, at), |b| - at - 4;
      assert n <= rest / 56 <==> 56 * n <= rest;
    }
  }

  lemma StatisticsFrom(b: bytes, receivedAt: Time, header: IslandSnapshot, b1: bytes, n: nat, b2: bytes)
    requires ParseHeader(b, receivedAt) == Parsed(header, b1) && ParseCount(b1, 56) == Parsed(n, b2)
    ensures ParseStatistics(b, receivedAt) ==
      match ParseEntries(n, b2) case Short => Short case Parsed(products, b3) => Parsed(header.(products := products), b3)
  {
    hide ParseHeader, ParseCount, ParseEntries;
  }

  lemma NoStatistics(b: bytes, receivedAt: Time, header: Parsed<IslandSnapshot>)
    requires header == ParseHeader(b, receivedAt)
    requires header.Short? || ParseCount(header.rest, 56).Short?
    ensures ParseStatistics(b, receivedAt) == Short
  {
    hide ParseHeader, ParseCount, ParseEntries;
  }

  /** What reading statistics gives is what is there. */
  lemma ReadStatistics(b: bytes, receivedAt: Time)
    requires |b| >= 1
    ensures var p := ParseStatistics(b[1..], receivedAt);
      p.Parsed? ==> StatisticsAt(b, p.value) && p.value.receivedAt == receivedAt
  {
    hide ParseHeader, ParseCount, ParseEntries, ParseStatistics, EntriesAt, I32At, I64At;
    if |b| >= 9 && |b| >= 17 + b[8] as int {
      var n: nat := b[8] as int;
      HeaderFrom(b, receivedAt);
      CountFrom(b, 17 + n);
      var header, count := ParseHeader(b[1..], receivedAt), ParseCount(b[17 + n..], 56);
      if count.Parsed? {
        StatisticsFrom(b[1..], receivedAt, header.value, header.rest, count.value, count.rest);
        ReadEntries(b, 21 + n, count.value);
      } else {
        NoStatistics(b[1..], receivedAt, header);
      }
    } else {
      NoHeader(b, receivedAt);
      NoStatistics(b[1..], receivedAt, ParseHeader(b[1..], receivedAt));
    }
  }

  /** And what is there is read. */
  lemma StatisticsRead(b: bytes, receivedAt: Time, s: IslandSnapshot) returns (rest: bytes)
    requires |b| >= 1 && StatisticsAt(b, s) && s.receivedAt == receivedAt
    ensures ParseStatistics(b[1..], receivedAt) == Parsed(s, rest)
  {
    hide ParseHeader, ParseCount, ParseEntries, ParseStatistics, EntriesAt, I32At, I64At;
    var n: nat := b[8] as int;
    HeaderFrom(b, receivedAt);
    CountFrom(b, 17 + n);
    rest := EntriesRead(b, 21 + n, s.products);
    var header, count := ParseHeader(b[1..], receivedAt), ParseCount(b[17 + n..], 56);
    StatisticsFrom(b[1..], receivedAt, header.value, header.rest, count.value, count.rest);
    assert header.value.(products := s.products) == s;
  }

  /** Decoding gives a message exactly when the payload carries it, for every payload and message. */
  lemma DecodeIffCarried(b: bytes, receivedAt: Time, m: Message)
    ensures Decode(b, receivedAt) == Ok(m) <==> Carries(b, receivedAt, m)
  {
    hide ParseI32, ParseString, ParseStatistics, StatisticsAt, I32At;
    if |b| >= 1 {
      assert b[1..] == b[1..|b|];
      ReadI32(b, 1);
      ReadString(b, 1);
      ReadStatistics(b, receivedAt);
      if m.AreaStatistics? && StatisticsAt(b, m.snapshot) && m.snapshot.receivedAt == receivedAt {
        var rest := StatisticsRead(b, receivedAt, m.snapshot);
      }
    }
  }

  /** A payload that carries no message is of an unknown type if its first byte is above three, and else too short. */
  lemma DecodeFailure(b: bytes, receivedAt: Time)
    ensures Decode(b, receivedAt) == Err(UnknownType) <==> |b| >= 1 && b[0] > 3
    ensures Decode(b, receivedAt) == Err(ShortFrame) <==>
      |b| == 0 || (b[0] <= 3 && forall m :: !Carries(b, receivedAt, m))
  {
    hide ParseI32, ParseString, ParseStatistics, StatisticsAt, I32At, Carries;
    forall m ensures Decode(b, receivedAt) == Ok(m) <==> Carries(b, receivedAt, m) {
      DecodeIffCarried(b, receivedAt, m);
    }
  }

  // --- writing ---

  /** Encoding refuses exactly what the format cannot carry, and what it writes is carried by its bytes. */
  lemma EncodeFailure(m: Message)
    ensures Encode(m).Ok? ==> 1 <= |Encode(m).value| <= 1048576
    ensures match m
      case Version(_) => Encode(m).Ok?
      case SessionStart(headline) => Encode(m).Ok? <==> |headline| <= 255
      case SessionEnd => Encode(m) == Ok([2])
      case AreaStatistics(s) =>
        && (Encode(m) == Err(IslandOutOfRange) <==> s.key.island < 0 || s.key.island > 255)
        && (Encode(m) == Err(StringTooLong) <==> 0 <= s.key.island <= 255 && |s.name| > 255)
        && (Encode(m) == Err(TooManyPairs) <==>
              0 <= s.key.island <= 255 && |s.name| <= 255
              && exists p :: p in s.products && (|p.workforce| > 2147483647 || |p.buildingsByGuid| > 2147483647))
    ensures m.SessionStart? && Encode(m).Err? ==> Encode(m).error == StringTooLong
  {
    hide StatisticsBytes;
  }
}
