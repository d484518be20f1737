/** Decoding inverts encoding, and encoding what was decoded is canonical. */
module WireTheorems {
  import opened Model
  import opened WireFormat

  lemma Assoc(a: bytes, b: bytes, c: bytes)
    ensures (a + b) + c == a + (b + c)
  {
  }

  // --- numbers and strings come back ---

  lemma Digits(u: float32)
    ensures u % 0x100 + u / 0x100 % 0x100 * 0x100 + u / 0x1_0000 % 0x100 * 0x1_0000 + u / 0x100_0000 * 0x100_0000 == u
    ensures u / 0x100_0000 < 0x100
  {
    assert u / 0x1_0000 == u / 0x100 / 0x100;
    assert u / 0x100_0000 == u / 0x1_0000 / 0x100;
  }

  lemma FourBytes(b0: byte, b1: byte, b2: byte, b3: byte, t: bytes)
    ensures ParseU32([b0, b1, b2, b3] + t) == Parsed(b0 as int + b1 as int * 0x100 + b2 as int * 0x1_0000 + b3 as int * 0x100_0000, t)
  {
    assert ([b0, b1, b2, b3] + t)[4..] == t;
  }

  lemma U32Back(u: float32, t: bytes)
    ensures ParseU32(U32Bytes(u) + t) == Parsed(u, t)
  {
    hide ParseU32;
    Digits(u);
    FourBytes(u % 0x100, u / 0x100 % 0x100, u / 0x1_0000 % 0x100, u / 0x100_0000, t);
  }

  lemma I32Back(v: int32, t: bytes)
    ensures ParseI32(I32Bytes(v) + t) == Parsed(v, t)
  {
    U32Back(Unsigned(v), t);
  }

  lemma I64Back(v: int64, t: bytes)
    ensures ParseI64(I64Bytes(v) + t) == Parsed(v, t)
  {
    var u := if v < 0 then v + 0x1_0000_0000_0000_0000 else v;
    var low, high := U32Bytes(u % 0x1_0000_0000), U32Bytes(u / 0x1_0000_0000);
    assert I64Bytes(v) + t == low + (high + t);
    U32Back(u % 0x1_0000_0000, high + t);
    U32Back(u / 0x1_0000_0000, t);
    assert (I64Bytes(v) + t)[8..] == t;
  }

  lemma StringBack(s: bytes, t: bytes)
    requires |s| <= 255
    ensures ParseString(StringBytes(s) + t) == Parsed(s, t)
  {
    assert (StringBytes(s) + t)[1..] == s + t;
  }

  // --- pair lists ---

  ghost predicate Ascending(keys: seq<int32>) {
    forall i, j :: 0 <= i < j < |keys| ==> keys[i] < keys[j]
  }

  lemma AscendsFrom(k: int32, rest: seq<int32>)
    requires Ascending(rest) && forall j :: j in rest ==> k < j
    ensures Ascending([k] + rest)
  {
    assert forall i :: 0 <= i < |rest| ==> rest[i] in rest;
  }

  lemma {:induction false} SortedKeysAscend(s: set<int32>)
    ensures Ascending(SortedKeys(s))
  {
    if s != {} {
      hide Ascending, Least;
      var k := Least(s);
      SortedKeysAscend(s - {k});
      AscendsFrom(k, SortedKeys(s - {k}));
    } else {
      assert SortedKeys(s) == [];
    }
  }

  lemma {:induction false} PairBytesLength(keys: seq<int32>, m: map<int32, int32>)
    requires forall k :: k in keys ==> k in m
    ensures |PairBytes(keys, m)| == 8 * |keys|
  {
    if keys != [] { PairBytesLength(keys[1..], m); }
  }

  function AddAll(before: map<int32, int32>, keys: seq<int32>, m: map<int32, int32>): map<int32, int32>
    requires forall k :: k in keys ==> k in m
    decreases |keys|
  {
    if keys == [] then before else AddAll(Accumulate(before, keys[0], m[keys[0]]), keys[1..], m)
  }

  lemma {:induction false} PairListBack(keys: seq<int32>, m: map<int32, int32>, before: map<int32, int32>, t: bytes)
    requires forall k :: k in keys ==> k in m
    ensures ParsePairList(|keys|, PairBytes(keys, m) + t, before) == Parsed(AddAll(before, keys, m), t)
    decreases |keys|
  {
    if keys == [] {
      assert PairBytes(keys, m) + t == t;
    } else {
      var k := keys[0];
      var rest := PairBytes(keys[1..], m) + t;
      Assoc(I32Bytes(k) + I32Bytes(m[k]), PairBytes(keys[1..], m), t);
      Assoc(I32Bytes(k), I32Bytes(m[k]), rest);
      hide I32Bytes, ParseI32, PairBytes, Accumulate;
      I32Back(k, I32Bytes(m[k]) + rest);
      I32Back(m[k], rest);
      PairListBack(keys[1..], m, Accumulate(before, k, m[k]), t);
    }
  }

  /** Distinct keys are added each with its own amount. */
  lemma {:induction false} AddedOnce(before: map<int32, int32>, keys: seq<int32>, m: map<int32, int32>)
    requires forall k :: k in keys ==> k in m && k !in before
    requires Ascending(keys)
    ensures var after := AddAll(before, keys, m);
      && (forall k :: k in after <==> k in before || k in keys)
      && (forall k :: k in after ==> after[k] == if k in keys then m[k] else before[k])
    decreases |keys|
  {
    if keys != [] {
      var k := keys[0];
      assert keys == [k] + keys[1..];
      assert Accumulate(before, k, m[k]) == before[k := m[k]];
      hide Accumulate;
      assert forall j :: j in keys[1..] ==> j > k;
      AddedOnce(before[k := m[k]], keys[1..], m);
    }
  }

  lemma AddedAll(m: map<int32, int32>)
    ensures AddAll(map[], SortedKeys(m.Keys), m) == m
  {
    hide AddAll;
    SortedKeysAscend(m.Keys);
    AddedOnce(map[], SortedKeys(m.Keys), m);
    assert AddAll(map[], SortedKeys(m.Keys), m).Keys == m.Keys;
  }

  lemma CountBack(n: nat, elemSize: nat, rest: bytes)
    requires n <= MAX_INT32 && (elemSize == PAIR_SIZE || elemSize == MIN_ENTRY_SIZE) && n * elemSize <= |rest|
    ensures ParseCount(I32Bytes(n) + rest, elemSize) == Parsed(n, rest)
  {
    I32Back(n, rest);
    hide I32Bytes, ParseI32;
    if elemSize == PAIR_SIZE {
      assert n <= |rest| / 8;
    } else {
      assert n <= |rest| / 56;
    }
  }

  lemma NoWrap(n: nat)
    requires n <= MAX_INT32
    ensures ToInt32(n) == n
  {
  }

  lemma PairsBack(m: map<int32, int32>, t: bytes)
    requires |m| <= MAX_INT32
    ensures ParsePairs(PairsBytes(m) + t) == Parsed(m, t)
  {
    hide I32Bytes, PairBytes, ParseCount, ParsePairList, AddAll, ToInt32, SortedKeys;
    var keys := SortedKeys(m.Keys);
    NoWrap(|m|);
    var body := PairBytes(keys, m) + t;
    assert |keys| == |m|;
    Assoc(I32Bytes(|m|), PairBytes(keys, m), t);
    PairBytesLength(keys, m);
    CountBack(|m|, PAIR_SIZE, body);
    PairListBack(keys, m, map[], t);
    AddedAll(m);
  }

  // --- entries ---

  lemma BalanceBack(p: ProductStat, t: bytes)
    ensures ParseBalance(BalanceBytes(p) + t) ==
      Parsed(NO_STAT.(guid := p.guid, generation := p.generation, consumption := p.consumption, delta := p.delta,
                      perfectGeneration := p.perfectGeneration, perfectConsumption := p.perfectConsumption), t)
  {
    hide U32Bytes, I32Bytes, ParseU32, ParseI32;
    var b5 := U32Bytes(p.perfectConsumption) + t;
    var b4 := U32Bytes(p.perfectGeneration) + b5;
    var b3 := U32Bytes(p.delta) + b4;
    var b2 := U32Bytes(p.consumption) + b3;
    var b1 := U32Bytes(p.generation) + b2;
    assert BalanceBytes(p) + t == I32Bytes(p.guid) + b1;
    I32Back(p.guid, b1);
    U32Back(p.generation, b2);
    U32Back(p.consumption, b3);
    U32Back(p.delta, b4);
    U32Back(p.perfectGeneration, b5);
    U32Back(p.perfectConsumption, t);
  }

  lemma UpkeepBack(p: ProductStat, base: ProductStat, t: bytes)
    ensures ParseUpkeep(base, UpkeepBytes(p) + t) ==
      Parsed(base.(buildings := p.buildings, maintenance := p.maintenance, income := p.income, profit := p.profit,
                   summedProductivity := p.summedProductivity, avgProductivity := p.avgProductivity), t)
  {
    hide U32Bytes, I32Bytes, ParseU32, ParseI32;
    var b5 := U32Bytes(p.avgProductivity) + t;
    var b4 := U32Bytes(p.summedProductivity) + b5;
    var b3 := I32Bytes(p.profit) + b4;
    var b2 := U32Bytes(p.income) + b3;
    var b1 := I32Bytes(p.maintenance) + b2;
    assert UpkeepBytes(p) + t == I32Bytes(p.buildings) + b1;
    I32Back(p.buildings, b1);
    I32Back(p.maintenance, b2);
    U32Back(p.income, b3);
    I32Back(p.profit, b4);
    U32Back(p.summedProductivity, b5);
    U32Back(p.avgProductivity, t);
  }

  lemma FixedBack(p: ProductStat, t: bytes)
    ensures ParseFixed(FixedBytes(p) + t) == Parsed(p.(workforce := map[], buildingsByGuid := map[]), t)
  {
    hide BalanceBytes, UpkeepBytes, ParseBalance, ParseUpkeep;
    Assoc(BalanceBytes(p), UpkeepBytes(p), t);
    BalanceBack(p, UpkeepBytes(p) + t);
    UpkeepBack(p, ParseBalance(FixedBytes(p) + t).value, t);
  }

  lemma EntryBack(p: ProductStat, t: bytes)
    requires |p.workforce| <= MAX_INT32 && |p.buildingsByGuid| <= MAX_INT32
    ensures ParseEntry(EntryBytes(p) + t) == Parsed(p, t)
    ensures |EntryBytes(p)| >= MIN_ENTRY_SIZE
  {
    var b2 := PairsBytes(p.buildingsByGuid) + t;
    var b1 := PairsBytes(p.workforce) + b2;
    Assoc(FixedBytes(p), PairsBytes(p.workforce) + PairsBytes(p.buildingsByGuid), t);
    Assoc(PairsBytes(p.workforce), PairsBytes(p.buildingsByGuid), t);
    hide ParseFixed, ParsePairs;
    FixedBack(p, b1);
    PairsBack(p.workforce, b2);
    PairsBack(p.buildingsByGuid, t);
  }

  lemma EntriesJoin(n: nat, b: bytes, p: ProductStat, b1: bytes, more: seq<ProductStat>, b2: bytes)
    requires n > 0 && ParseEntry(b) == Parsed(p, b1) && ParseEntries(n - 1, b1) == Parsed(more, b2)
    ensures ParseEntries(n, b) == Parsed([p] + more, b2)
  {
    hide ParseEntry;
  }

  lemma EntriesSplit(n: nat, b: bytes) returns (p: ProductStat, b1: bytes, more: seq<ProductStat>, b2: bytes)
    requires n > 0 && ParseEntries(n, b).Parsed?
    ensures ParseEntry(b) == Parsed(p, b1) && ParseEntries(n - 1, b1) == Parsed(more, b2)
    ensures ParseEntries(n, b) == Parsed([p] + more, b2)
  {
    hide ParseEntry;
    p, b1 := ParseEntry(b).value, ParseEntry(b).rest;
    more, b2 := ParseEntries(n - 1, b1).value, ParseEntries(n - 1, b1).rest;
  }

  lemma {:induction false} EntriesBack(products: seq<ProductStat>, t: bytes)
    requires PairsFit(products)
    ensures ParseEntries(|products|, EntriesBytes(products) + t) == Parsed(products, t)
    ensures |EntriesBytes(products)| >= MIN_ENTRY_SIZE * |products|
  {
    hide ParseEntry, EntryBytes;
    if products == [] {
      assert EntriesBytes(products) + t == t;
    } else {
      var rest := EntriesBytes(products[1..]) + t;
      assert EntriesBytes(products) == EntryBytes(products[0]) + EntriesBytes(products[1..]);
      Assoc(EntryBytes(products[0]), EntriesBytes(products[1..]), t);
      assert PairsFit(products[1..]) && products[0] in products;
      hide ParseEntries, EntriesBytes, PairsFit;
      EntryBack(products[0], rest);
      EntriesBack(products[1..], t);
      EntriesJoin(|products|, EntriesBytes(products) + t, products[0], rest, products[1..], t);
      assert products == [products[0]] + products[1..];
    }
  }

  // --- messages ---

  lemma HeaderBack(s: IslandSnapshot, receivedAt: Time, t: bytes)
    requires 0 <= s.key.island <= 255 && |s.name| <= 255
    ensures ParseHeader(HeaderBytes(s) + t, receivedAt) == Parsed(s.(receivedAt := receivedAt, products := []), t)
  {
    hide I32Bytes, I64Bytes, StringBytes, ParseI32, ParseI64, ParseString;
    var b5 := I64Bytes(s.gameTimestamp) + t;
    var b4 := StringBytes(s.name) + b5;
    var b3 := I32Bytes(s.key.session) + b4;
    var b2 := [s.areaIndex] + b3;
    var b1 := [s.key.island] + b2;
    assert HeaderBytes(s) + t == [s.sessionId] + b1;
    assert ([s.sessionId] + b1)[1..] == b1 && b1[1..] == b2 && b2[1..] == b3;
    I32Back(s.key.session, b4);
    StringBack(s.name, b5);
    I64Back(s.gameTimestamp, t);
  }

  lemma StatisticsBack(s: IslandSnapshot, receivedAt: Time, t: bytes)
    requires 0 <= s.key.island <= 255 && |s.name| <= 255 && PairsFit(s.products) && |s.products| <= MAX_INT32
    ensures ParseStatistics(StatisticsBytes(s) + t, receivedAt) == Parsed(s.(receivedAt := receivedAt), t)
  {
    hide HeaderBytes, ParseHeader, EntriesBytes, ParseEntries, I32Bytes, ParseI32;
    var b2 := EntriesBytes(s.products) + t;
    var b1 := I32Bytes(|s.products|) + b2;
    Assoc(HeaderBytes(s), I32Bytes(|s.products|) + EntriesBytes(s.products), t);
    Assoc(I32Bytes(|s.products|), EntriesBytes(s.products), t);
    HeaderBack(s, receivedAt, b1);
    I32Back(|s.products|, b2);
    EntriesBack(s.products, t);
  }

  /** The message a receiver gets: the snapshot carries the receive time. */
  function Received(m: Message, receivedAt: Time): Message {
    if m.AreaStatistics? then m.(snapshot := m.snapshot.(receivedAt := receivedAt)) else m
  }

  /** The entries are a part of the payload. */
  lemma EntriesFit(m: Message)
    requires Encode(m).Ok? && m.AreaStatistics?
    ensures PairsFit(m.snapshot.products) && |EntriesBytes(m.snapshot.products)| <= MAX_FRAME_SIZE
  {
    hide HeaderBytes, I32Bytes, EntriesBytes, PairsFit;
  }

  lemma FewProducts(m: Message)
    requires Encode(m).Ok? && m.AreaStatistics?
    ensures |m.snapshot.products| <= MAX_INT32
  {
    hide Encode, EntriesBytes, ParseEntries, PairsFit;
    EntriesFit(m);
    EntriesBack(m.snapshot.products, []);
  }

  /** Decoding an encoded message gives it back, whatever bytes follow. */
  lemma RoundTrip(m: Message, tail: bytes, receivedAt: Time)
    requires Encode(m).Ok?
    ensures Decode(Encode(m).value + tail, receivedAt) == Ok(Received(m, receivedAt))
  {
    hide I32Bytes, ParseI32, StringBytes, ParseString, StatisticsBytes, ParseStatistics;
    var payload := Encode(m).value + tail;
    match m
    case Version(v) =>
      assert payload[1..] == I32Bytes(v) + tail;
      I32Back(v, tail);
    case SessionStart(h) =>
      assert payload[1..] == StringBytes(h) + tail;
      StringBack(h, tail);
    case SessionEnd =>
    case AreaStatistics(s) =>
      assert payload[1..] == StatisticsBytes(s) + tail;
      FewProducts(m);
      StatisticsBack(s, receivedAt, tail);
  }

  // --- more bytes never change what was read ---

  lemma U8More(b: bytes, t: bytes)
    requires ParseU8(b).Parsed?
    ensures ParseU8(b + t) == Parsed(ParseU8(b).value, ParseU8(b).rest + t)
  {
    assert (b + t)[1..] == b[1..] + t;
  }

  lemma U32More(b: bytes, t: bytes)
    requires ParseU32(b).Parsed?
    ensures ParseU32(b + t) == Parsed(ParseU32(b).value, ParseU32(b).rest + t)
  {
    assert (b + t)[4..] == b[4..] + t;
  }

  lemma I32More(b: bytes, t: bytes)
    requires ParseI32(b).Parsed?
    ensures ParseI32(b + t) == Parsed(ParseI32(b).value, ParseI32(b).rest + t)
  {
    U32More(b, t);
  }

  lemma I64More(b: bytes, t: bytes)
    requires ParseI64(b).Parsed?
    ensures ParseI64(b + t) == Parsed(ParseI64(b).value, ParseI64(b).rest + t)
  {
    U32More(b, t);
    U32More(b[4..], t);
    assert (b + t)[4..] == b[4..] + t && (b + t)[8..] == b[8..] + t;
  }

  lemma StringMore(b: bytes, t: bytes)
    requires ParseString(b).Parsed?
    ensures ParseString(b + t) == Parsed(ParseString(b).value, ParseString(b).rest + t)
  {
    assert (b + t)[1..] == b[1..] + t;
    assert (b[1..] + t)[..b[0]] == b[1..][..b[0]];
    assert (b[1..] + t)[b[0]..] == b[1..][b[0]..] + t;
  }

  lemma CountMore(b: bytes, elemSize: nat, t: bytes)
    requires elemSize == PAIR_SIZE || elemSize == MIN_ENTRY_SIZE
    requires ParseCount(b, elemSize).Parsed?
    ensures ParseCount(b + t, elemSize) == Parsed(ParseCount(b, elemSize).value, ParseCount(b, elemSize).rest + t)
  {
    I32More(b, t);
    if elemSize == PAIR_SIZE {
    } else {
      assert elemSize == MIN_ENTRY_SIZE;
    }
  }

  lemma {:induction false} PairListMore(n: nat, b: bytes, m: map<int32, int32>, t: bytes)
    requires ParsePairList(n, b, m).Parsed?
    ensures ParsePairList(n, b + t, m) == Parsed(ParsePairList(n, b, m).value, ParsePairList(n, b, m).rest + t)
  {
    hide ParseI32, Accumulate;
    if n > 0 {
      var b1 := ParseI32(b).rest;
      I32More(b, t);
      I32More(b1, t);
      PairListMore(n - 1, ParseI32(b1).rest, Accumulate(m, ParseI32(b).value, ParseI32(b1).value), t);
    }
  }

  lemma PairsMore(b: bytes, t: bytes)
    requires ParsePairs(b).Parsed?
    ensures ParsePairs(b + t) == Parsed(ParsePairs(b).value, ParsePairs(b).rest + t)
  {
    hide ParseCount;
    CountMore(b, PAIR_SIZE, t);
    PairListMore(ParseCount(b, PAIR_SIZE).value, ParseCount(b, PAIR_SIZE).rest, map[], t);
  }

  lemma BalanceMore(b: bytes, t: bytes)
    requires ParseBalance(b).Parsed?
    ensures ParseBalance(b + t) == Parsed(ParseBalance(b).value, ParseBalance(b).rest + t)
  {
    hide ParseI32, ParseU32;
    I32More(b, t);
    var b1 := ParseI32(b).rest;
    U32More(b1, t);
    var b2 := ParseU32(b1).rest;
    U32More(b2, t);
    var b3 := ParseU32(b2).rest;
    U32More(b3, t);
    var b4 := ParseU32(b3).rest;
    U32More(b4, t);
    U32More(ParseU32(b4).rest, t);
  }

  lemma UpkeepMore(p: ProductStat, b: bytes, t: bytes)
    requires ParseUpkeep(p, b).Parsed?
    ensures ParseUpkeep(p, b + t) == Parsed(ParseUpkeep(p, b).value, ParseUpkeep(p, b).rest + t)
  {
    hide ParseI32, ParseU32;
    I32More(b, t);
    var b1 := ParseI32(b).rest;
    I32More(b1, t);
    var b2 := ParseI32(b1).rest;
    U32More(b2, t);
    var b3 := ParseU32(b2).rest;
    I32More(b3, t);
    var b4 := ParseI32(b3).rest;
    U32More(b4, t);
    U32More(ParseU32(b4).rest, t);
  }

  lemma FixedMore(b: bytes, t: bytes)
    requires ParseFixed(b).Parsed?
    ensures ParseFixed(b + t) == Parsed(ParseFixed(b).value, ParseFixed(b).rest + t)
  {
    hide ParseBalance, ParseUpkeep;
    BalanceMore(b, t);
    UpkeepMore(ParseBalance(b).value, ParseBalance(b).rest, t);
  }

  lemma EntryMore(b: bytes, t: bytes)
    requires ParseEntry(b).Parsed?
    ensures ParseEntry(b + t) == Parsed(ParseEntry(b).value, ParseEntry(b).rest + t)
  {
    hide ParseFixed, ParsePairs;
    FixedMore(b, t);
    var b1 := ParseFixed(b).rest;
    PairsMore(b1, t);
    PairsMore(ParsePairs(b1).rest, t);
  }

  lemma {:induction false} EntriesMore(n: nat, b: bytes, t: bytes)
    requires ParseEntries(n, b).Parsed?
    ensures ParseEntries(n, b + t) == Parsed(ParseEntries(n, b).value, ParseEntries(n, b).rest + t)
  {
    hide ParseEntry;
    if n > 0 {
      hide ParseEntries;
      var p, b1, more, b2 := EntriesSplit(n, b);
      EntryMore(b, t);
      EntriesMore(n - 1, b1, t);
      EntriesJoin(n, b + t, p, b1 + t, more, b2 + t);
    }
  }

  lemma HeaderMore(b: bytes, receivedAt: Time, t: bytes)
    requires ParseHeader(b, receivedAt).Parsed?
    ensures ParseHeader(b + t, receivedAt) == Parsed(ParseHeader(b, receivedAt).value, ParseHeader(b, receivedAt).rest + t)
  {
    hide ParseU8, ParseI32, ParseI64, ParseString;
    U8More(b, t);
    var b1 := ParseU8(b).rest;
    U8More(b1, t);
    var b2 := ParseU8(b1).rest;
    U8More(b2, t);
    var b3 := ParseU8(b2).rest;
    I32More(b3, t);
    var b4 := ParseI32(b3).rest;
    StringMore(b4, t);
    I64More(ParseString(b4).rest, t);
  }

  lemma StatisticsMore(b: bytes, receivedAt: Time, t: bytes)
    requires ParseStatistics(b, receivedAt).Parsed?
    ensures ParseStatistics(b + t, receivedAt)
         == Parsed(ParseStatistics(b, receivedAt).value, ParseStatistics(b, receivedAt).rest + t)
  {
    hide ParseHeader, ParseCount, ParseEntries;
    HeaderMore(b, receivedAt, t);
    var b1 := ParseHeader(b, receivedAt).rest;
    CountMore(b1, MIN_ENTRY_SIZE, t);
    EntriesMore(ParseCount(b1, MIN_ENTRY_SIZE).value, ParseCount(b1, MIN_ENTRY_SIZE).rest, t);
  }

  lemma VersionPrefix(v: int32, b: bytes, cut: bytes)
    requires I32Bytes(v) == b + cut && cut != []
    ensures ParseI32(b).Short?
  {
    I32Back(v, []);
    assert I32Bytes(v) + [] == b + cut;
    hide I32Bytes, ParseI32;
    if ParseI32(b).Parsed? { I32More(b, cut); }
  }

  lemma HeadlinePrefix(h: bytes, b: bytes, cut: bytes)
    requires |h| <= 255 && StringBytes(h) == b + cut && cut != []
    ensures ParseString(b).Short?
  {
    StringBack(h, []);
    assert StringBytes(h) + [] == b + cut;
    hide StringBytes, ParseString;
    if ParseString(b).Parsed? { StringMore(b, cut); }
  }

  lemma StatisticsPrefix(s: IslandSnapshot, receivedAt: Time, b: bytes, cut: bytes)
    requires 0 <= s.key.island <= 255 && |s.name| <= 255 && PairsFit(s.products) && |s.products| <= MAX_INT32
    requires StatisticsBytes(s) == b + cut && cut != []
    ensures ParseStatistics(b, receivedAt).Short?
  {
    hide StatisticsBytes, ParseStatistics, PairsFit;
    StatisticsBack(s, receivedAt, []);
    assert StatisticsBytes(s) + [] == b + cut;
    if ParseStatistics(b, receivedAt).Parsed? { StatisticsMore(b, receivedAt, cut); }
  }

  /** A message cut anywhere before its end is too short. */
  lemma PrefixFails(m: Message, n: nat, receivedAt: Time)
    requires Encode(m).Ok? && n < |Encode(m).value|
    ensures Decode(Encode(m).value[..n], receivedAt) == Err(ShortFrame)
  {
    hide I32Bytes, ParseI32, StringBytes, ParseString, StatisticsBytes, ParseStatistics, PairsFit;
    var payload := Encode(m).value;
    var prefix, cut := payload[..n], payload[n..];
    if n > 0 {
      var b := prefix[1..];
      assert payload[1..] == b + cut;
      match m
      case Version(v) =>
        assert payload[1..] == I32Bytes(v);
        VersionPrefix(v, b, cut);
      case SessionStart(h) =>
        assert payload[1..] == StringBytes(h);
        HeadlinePrefix(h, b, cut);
      case SessionEnd =>
      case AreaStatistics(s) =>
        assert payload[1..] == StatisticsBytes(s);
        FewProducts(m);
        StatisticsPrefix(s, receivedAt, b, cut);
    }
  }

  // --- canonical form ---

  lemma {:induction false} PairListWithin(n: nat, b: bytes, m: map<int32, int32>)
    requires ParsePairList(n, b, m).Parsed?
    ensures |ParsePairList(n, b, m).value| <= |m| + n
    ensures |ParsePairList(n, b, m).rest| + 8 * n == |b|
  {
    hide ParseI32, ToInt32;
    if n > 0 {
      var b1 := ParseI32(b).rest;
      var next := Accumulate(m, ParseI32(b).value, ParseI32(b1).value);
      assert next.Keys == m.Keys + {ParseI32(b).value};
      PairListWithin(n - 1, ParseI32(b1).rest, next);
    }
  }

  /** Summing duplicate pairs never makes a list longer. */
  lemma PairsWithin(b: bytes)
    requires ParsePairs(b).Parsed?
    ensures var m := ParsePairs(b).value;
      |m| <= MAX_INT32 && |PairsBytes(m)| + |ParsePairs(b).rest| <= |b|
  {
    var n, rest := ParseCount(b, PAIR_SIZE).value, ParseCount(b, PAIR_SIZE).rest;
    PairListWithin(n, rest, map[]);
    PairBytesLength(SortedKeys(ParsePairs(b).value.Keys), ParsePairs(b).value);
  }

  lemma FixedWithin(b: bytes)
    requires ParseFixed(b).Parsed?
    ensures |ParseFixed(b).rest| + 48 == |b|
  {
    hide ParseU32, ParseI32;
  }

  lemma EntryWithin(b: bytes)
    requires ParseEntry(b).Parsed?
    ensures var p := ParseEntry(b).value;
      && |p.workforce| <= MAX_INT32 && |p.buildingsByGuid| <= MAX_INT32
      && |EntryBytes(p)| + |ParseEntry(b).rest| <= |b|
  {
    hide ParseFixed, ParsePairs, PairsBytes;
    FixedWithin(b);
    var b1 := ParseFixed(b).rest;
    PairsWithin(b1);
    PairsWithin(ParsePairs(b1).rest);
    assert |FixedBytes(ParseEntry(b).value)| == 48;
  }

  lemma {:induction false} EntriesWithin(n: nat, b: bytes)
    requires ParseEntries(n, b).Parsed?
    ensures var products := ParseEntries(n, b).value;
      |products| == n && PairsFit(products) && |EntriesBytes(products)| + |ParseEntries(n, b).rest| <= |b|
  {
    hide ParseEntry;
    if n > 0 {
      hide ParseEntries, EntryBytes, EntriesBytes, PairsFit;
      var p, b1, more, b2 := EntriesSplit(n, b);
      EntryWithin(b);
      EntriesWithin(n - 1, b1);
      OneMoreEntry(p, more);
    }
  }

  lemma OneMoreEntry(p: ProductStat, products: seq<ProductStat>)
    ensures EntriesBytes([p] + products) == EntryBytes(p) + EntriesBytes(products)
    ensures |p.workforce| <= MAX_INT32 && |p.buildingsByGuid| <= MAX_INT32 && PairsFit(products) ==> PairsFit([p] + products)
  {
    assert ([p] + products)[1..] == products;
  }

  lemma HeaderWithin(b: bytes, receivedAt: Time)
    requires ParseHeader(b, receivedAt).Parsed?
    ensures var s := ParseHeader(b, receivedAt).value;
      && 0 <= s.key.island <= 255 && |s.name| <= 255
      && |HeaderBytes(s)| + |ParseHeader(b, receivedAt).rest| == |b|
      && s.receivedAt == receivedAt && s.products == []
  {
  }

  lemma StatisticsWithin(b: bytes, receivedAt: Time)
    requires ParseStatistics(b, receivedAt).Parsed?
    ensures var s := ParseStatistics(b, receivedAt).value;
      && 0 <= s.key.island <= 255 && |s.name| <= 255 && PairsFit(s.products)
      && |StatisticsBytes(s)| <= |b| && s.receivedAt == receivedAt
  {
    hide ParseHeader, HeaderBytes, ParseEntries, EntriesBytes;
    HeaderWithin(b, receivedAt);
    var b1 := ParseHeader(b, receivedAt).rest;
    var n, b2 := ParseCount(b1, MIN_ENTRY_SIZE).value, ParseCount(b1, MIN_ENTRY_SIZE).rest;
    EntriesWithin(n, b2);
    HeaderIgnoresProducts(ParseHeader(b, receivedAt).value, ParseEntries(n, b2).value);
  }

  lemma HeaderIgnoresProducts(s: IslandSnapshot, products: seq<ProductStat>)
    requires 0 <= s.key.island <= 255 && |s.name| <= 255
    ensures HeaderBytes(s.(products := products)) == HeaderBytes(s)
  {
  }

  /** Any payload within the frame limit that decodes encodes again, to no more bytes, and those bytes mean the
      same message; encoding what they decode to gives the same bytes once more. */
  lemma Canonical(payload: bytes, receivedAt: Time)
    requires |payload| <= MAX_FRAME_SIZE && Decode(payload, receivedAt).Ok?
    ensures
      var m := Decode(payload, receivedAt).value;
      && Encode(m).Ok?
      && |Encode(m).value| <= |payload|
      && Decode(Encode(m).value, receivedAt) == Ok(m)
      && Encode(Decode(Encode(m).value, receivedAt).value) == Encode(m)
  {
    hide Decode, Body;
    var m := Decode(payload, receivedAt).value;
    BodyWithin(payload, receivedAt, m);
    RoundTrip(m, [], receivedAt);
    assert Encode(m).value + [] == Encode(m).value;
  }

  lemma I32Within(b: bytes)
    requires ParseI32(b).Parsed?
    ensures |I32Bytes(ParseI32(b).value)| + |ParseI32(b).rest| == |b|
  {
  }

  lemma StringWithin(b: bytes)
    requires ParseString(b).Parsed?
    ensures |ParseString(b).value| <= 255 && |StringBytes(ParseString(b).value)| + |ParseString(b).rest| == |b|
  {
  }

  lemma BodyWithin(payload: bytes, receivedAt: Time, m: Message)
    requires Decode(payload, receivedAt) == Ok(m)
    ensures Body(m).Ok? && |Body(m).value| <= |payload| && Received(m, receivedAt) == m
  {
    hide StatisticsBytes, ParseStatistics, PairsFit, I32Bytes, ParseI32, StringBytes, ParseString;
    var b := payload[1..];
    match m
    case Version(v) => I32Within(b);
    case SessionStart(h) => StringWithin(b);
    case SessionEnd =>
    case AreaStatistics(s) => StatisticsWithin(b, receivedAt);
  }
}
