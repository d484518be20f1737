/** The codec as the program runs it: a reader whose first failure sticks, and a writer that appends. */
module WireCodec {
  import opened Model
  import opened Sorting
  import opened WireFormat
  import WireLayout
  import WireTheorems

  /** Walks a payload. After the first failure every later read is a no-op. */
  class Reader {
    const buf: bytes
    var off: nat
    var failed: bool

    ghost predicate Valid()
      reads this
    {
      off <= |buf|
    }

    /** The bytes still to be read, or none after a failure. */
    ghost function Left(): Option<bytes>
      requires Valid()
      reads this
    {
      if failed then None else Some(buf[off..])
    }

    /** Parsing what is left. */
    ghost function Front<T>(parse: bytes -> Parsed<T>): Parsed<T>
      requires Valid()
      reads this
    {
      if failed then Short else parse(buf[off..])
    }

    /** The reader is behind what was parsed, or has failed with it. */
    ghost predicate Read<T>(parsed: Parsed<T>, v: T)
      requires Valid()
      reads this
    {
      match parsed
      case Short => Left() == None
      case Parsed(x, rest) => v == x && Left() == Some(rest)
    }

    constructor (payload: bytes)
      ensures Valid() && Left() == Some(payload)
    {
      buf, off, failed := payload, 0, false;
    }

    method Take(n: nat) returns (taken: Option<bytes>)
      requires Valid()
      modifies this
      ensures Valid()
      ensures
        var left := old(Left());
        if left.Some? && n <= |left.value| then taken == Some(left.value[..n]) && Left() == Some(left.value[n..])
        else taken == None && Left() == None
    {
      if failed {
        return None;
      }
      if n > |buf| - off {
        failed := true;
        return None;
      }
      assert buf[off..][..n] == buf[off..off + n] && buf[off..][n..] == buf[off + n..];
      taken := Some(buf[off..off + n]);
      off := off + n;
    }

    method U8() returns (v: byte)
      requires Valid()
      modifies this
      ensures Valid() && Read(old(Front(ParseU8)), v)
      ensures Left().None? ==> v == 0
    {
      var b := Take(1);
      v := if b.None? then 0 else b.value[0];
    }

    method F32() returns (v: float32)
      requires Valid()
      modifies this
      ensures Valid() && Read(old(Front(ParseU32)), v)
      ensures Left().None? ==> v == 0
    {
      var b := Take(4);
      v := if b.None? then 0 else LittleEndian(b.value);
    }

    method I32() returns (v: int32)
      requires Valid()
      modifies this
      ensures Valid() && Read(old(Front(ParseI32)), v)
      ensures Left().None? ==> v == 0
    {
      var b := Take(4);
      v := if b.None? then 0 else Signed(LittleEndian(b.value));
    }

    method I64() returns (v: int64)
      requires Valid()
      modifies this
      ensures Valid() && Read(old(Front(ParseI64)), v)
      ensures Left().None? ==> v == 0
    {
      var b := Take(8);
      if b.None? {
        return 0;
      }
      var u: int := LittleEndian(b.value[..4]) + LittleEndian(b.value[4..]) * 0x1_0000_0000;
      v := if u < 0x8000_0000_0000_0000 then u else u - 0x1_0000_0000_0000_0000;
    }

    method String() returns (s: bytes)
      requires Valid()
      modifies this
      ensures Valid() && Read(old(Front(ParseString)), s)
      ensures Left().None? ==> s == []
    {
      var n := U8();
      var b := Take(n);
      s := if b.None? then [] else b.value;
    }

    /** A count the remaining bytes cannot satisfy is an error of the call; it does not stick. */
    method Count(elemSize: nat) returns (n: nat, ok: bool)
      requires Valid() && elemSize > 0
      modifies this
      ensures Valid()
      ensures ok <==> old(!failed) && ParseCount(old(buf[off..]), elemSize).Parsed?
      ensures ok ==> Read(ParseCount(old(buf[off..]), elemSize), n)
    {
      hide ParseI32;
      var v := I32();
      if failed {
        return 0, false;
      }
      var remaining := |buf| - off;
      if v < 0 || v > remaining / elemSize {
        return 0, false;
      }
      return v, true;
    }

    /** Amounts of the same product accumulate. */
    method Pairs() returns (m: map<int32, int32>, ok: bool)
      requires Valid()
      modifies this
      ensures Valid()
      ensures ok <==> old(Front(ParsePairs)).Parsed?
      ensures ok ==> Read(old(Front(ParsePairs)), m)
      ensures ok ==> WireLayout.PairsAt(buf, old(off), m)
    {
      hide ParseCount, ParseI32, Accumulate, WireLayout.PairsAt;
      WireLayout.ReadPairs(buf, off, map[]);
      m := map[];
      var n;
      n, ok := Count(PAIR_SIZE);
      if !ok {
        return;
      }
      ghost var all := ParsePairList(n, Left().value, map[]);
      for i := 0 to n
        invariant Valid() && !failed
        invariant ParsePairList(n - i, Left().value, m) == all
      {
        var guid := I32();
        var amount := I32();
        if failed {
          return m, false;
        }
        m := Accumulate(m, guid, amount);
      }
    }

    method Balance() returns (p: ProductStat)
      requires Valid()
      modifies this
      ensures Valid() && Read(old(Front(ParseBalance)), p)
    {
      hide ParseI32, ParseU32;
      var guid := I32();
      var generation := F32();
      var consumption := F32();
      var delta := F32();
      var perfectGeneration := F32();
      var perfectConsumption := F32();
      p := NO_STAT.(guid := guid, generation := generation, consumption := consumption, delta := delta,
                    perfectGeneration := perfectGeneration, perfectConsumption := perfectConsumption);
    }

    method Upkeep(base: ProductStat) returns (p: ProductStat)
      requires Valid()
      modifies this
      ensures Valid() && Read(old(Front(b => ParseUpkeep(base, b))), p)
    {
      hide ParseI32, ParseU32;
      var buildings := I32();
      var maintenance := I32();
      var income := F32();
      var profit := I32();
      var summed := F32();
      var average := F32();
      p := base.(buildings := buildings, maintenance := maintenance, income := income, profit := profit,
                 summedProductivity := summed, avgProductivity := average);
    }

    method DecodeEntry() returns (p: ProductStat, ok: bool)
      requires Valid()
      modifies this
      ensures Valid()
      ensures ok <==> old(Front(ParseEntry)).Parsed?
      ensures ok ==> Read(old(Front(ParseEntry)), p)
    {
      hide ParseBalance, ParseUpkeep, ParsePairs;
      p := Balance();
      p := Upkeep(p);
      var workforce, buildings;
      workforce, ok := Pairs();
      if !ok {
        return;
      }
      buildings, ok := Pairs();
      if !ok {
        return;
      }
      p := p.(workforce := workforce, buildingsByGuid := buildings);
    }

    method DecodeEntries(n: nat) returns (products: seq<ProductStat>, ok: bool)
      requires Valid() && !failed
      modifies this
      ensures Valid()
      ensures ok <==> ParseEntries(n, old(buf[off..])).Parsed?
      ensures ok ==> Read(ParseEntries(n, old(buf[off..])), products)
    {
      hide ParseEntry;
      products, ok := [], true;
      ghost var all := ParseEntries(n, buf[off..]);
      assert all.Parsed? ==> [] + all.value == all.value;
      for i := 0 to n
        invariant Valid() && !failed
        invariant match ParseEntries(n - i, buf[off..])
          case Short => all == Short
          case Parsed(more, rest) => all == Parsed(products + more, rest)
      {
        ghost var rest := ParseEntries(n - i, buf[off..]);
        var p;
        p, ok := DecodeEntry();
        if !ok {
          return;
        }
        ghost var more := ParseEntries(n - i - 1, buf[off..]);
        assert rest.Parsed? ==> products + rest.value == (products + [p]) + more.value;
        products := products + [p];
      }
      assert products + [] == products;
    }

    method Header(receivedAt: Time) returns (s: IslandSnapshot)
      requires Valid()
      modifies this
      ensures Valid() && Read(old(Front(b => ParseHeader(b, receivedAt))), s)
    {
      hide ParseU8, ParseI32, ParseI64, ParseString;
      var sessionId := U8();
      var island := U8();
      var area := U8();
      var session := I32();
      var name := String();
      var stamp := I64();
      s := IslandSnapshot(IslandKey(session, island), sessionId, area, name, receivedAt, stamp, []);
    }

    method DecodeAreaStatistics(receivedAt: Time) returns (s: IslandSnapshot, ok: bool)
      requires Valid()
      modifies this
      ensures Valid()
      ensures ok <==> old(Front(b => ParseStatistics(b, receivedAt))).Parsed?
      ensures ok ==> Read(old(Front(b => ParseStatistics(b, receivedAt))), s)
    {
      hide ParseHeader, ParseCount, ParseEntries;
      s := Header(receivedAt);
      var n;
      n, ok := Count(MIN_ENTRY_SIZE);
      if !ok {
        return;
      }
      var products;
      products, ok := DecodeEntries(n);
      if !ok {
        return;
      }
      s := s.(products := products);
    }
  }

  function LittleEndian(b: bytes): float32
    requires |b| == 4
  {
    b[0] as int + b[1] as int * 0x100 + b[2] as int * 0x1_0000 + b[3] as int * 0x100_0000
  }

  method Decode(payload: bytes, receivedAt: Time) returns (r: Result<Message, DecodeError>)
    ensures r == WireFormat.Decode(payload, receivedAt)
    ensures forall m :: r == Ok(m) <==> WireLayout.Carries(payload, receivedAt, m)
    ensures r == Err(UnknownType) <==> |payload| >= 1 && payload[0] > 3
  {
    hide ParseI32, ParseString, ParseStatistics, WireLayout.Carries;
    forall m ensures WireFormat.Decode(payload, receivedAt) == Ok(m) <==> WireLayout.Carries(payload, receivedAt, m) {
      WireLayout.DecodeIffCarried(payload, receivedAt, m);
    }
    WireLayout.DecodeFailure(payload, receivedAt);
    var reader := new Reader(payload);
    var tag := reader.U8();
    if reader.failed {
      return Err(ShortFrame);
    }
    match tag
    case 0 =>
      var version := reader.I32();
      return if reader.failed then Err(ShortFrame) else Ok(Version(version));
    case 1 =>
      var headline := reader.String();
      return if reader.failed then Err(ShortFrame) else Ok(SessionStart(headline));
    case 2 =>
      return Ok(SessionEnd);
    case 3 =>
      var snapshot, ok := reader.DecodeAreaStatistics(receivedAt);
      return if ok then Ok(AreaStatistics(snapshot)) else Err(ShortFrame);
    case _ =>
      return Err(UnknownType);
  }

  // --- writing ---

  function Same(k: int32): int32 { k }

  lemma SortedKeysAre(keys: seq<int32>, s: set<int32>)
    requires DistinctKeys(keys, Same) && forall k :: k in keys <==> k in s
    ensures StableSort(keys, Same, GuidLeq) == SortedKeys(s)
  {
    hide StableSort, SortedKeys;
    SortDistinct(keys, Same, GuidLeq);
    WireTheorems.SortedKeysAscend(s);
    StrictlySortedUnique(StableSort(keys, Same, GuidLeq), SortedKeys(s), Same, GuidLeq);
  }

  lemma Regroup(a: bytes, b: bytes, c: bytes, d: bytes)
    ensures a + b + c + d == a + (b + c + d)
  {
    WireTheorems.Assoc(a, b, c);
    WireTheorems.Assoc(a, b + c, d);
  }

  class Writer {
    var buf: bytes

    constructor (tag: byte)
      ensures buf == [tag]
    {
      buf := [tag];
    }

    method U8(v: byte)
      modifies this
      ensures buf == old(buf) + [v]
    {
      buf := buf + [v];
    }

    method F32(v: float32)
      modifies this
      ensures buf == old(buf) + U32Bytes(v)
    {
      buf := buf + U32Bytes(v);
    }

    method I32(v: int32)
      modifies this
      ensures buf == old(buf) + I32Bytes(v)
    {
      buf := buf + U32Bytes(Unsigned(v));
    }

    method I64(v: int64)
      modifies this
      ensures buf == old(buf) + I64Bytes(v)
    {
      buf := buf + I64Bytes(v);
    }

    method String(s: bytes) returns (ok: bool)
      modifies this
      ensures ok <==> |s| <= 255
      ensures ok ==> buf == old(buf) + StringBytes(s)
    {
      if |s| > 255 {
        return false;
      }
      U8(|s|);
      buf := buf + s;
      return true;
    }

    method WritePairs(keys: seq<int32>, m: map<int32, int32>)
      requires forall k :: k in keys ==> k in m
      modifies this
      ensures buf == old(buf) + PairBytes(keys, m)
    {
      hide I32Bytes;
      var i := 0;
      while i < |keys|
        invariant i <= |keys|
        invariant buf + PairBytes(keys[i..], m) == old(buf) + PairBytes(keys, m)
      {
        Regroup(buf, I32Bytes(keys[i]), I32Bytes(m[keys[i]]), PairBytes(keys[i + 1..], m));
        assert keys[i..][1..] == keys[i + 1..];
        I32(keys[i]);
        I32(m[keys[i]]);
        i := i + 1;
      }
    }

    /** The keys are collected in whatever order the map yields them and written in ascending order. */
    method Pairs(m: map<int32, int32>) returns (ok: bool)
      modifies this
      ensures ok <==> |m| <= MAX_INT32
      ensures ok ==> buf == old(buf) + PairsBytes(m)
    {
      hide I32Bytes, StableSort, SortedKeys, PairBytes, ToInt32;
      if |m| > MAX_INT32 {
        return false;
      }
      var keys := Collect(m);
      SortedKeysAre(keys, m.Keys);
      keys := StableSort(keys, Same, GuidLeq);
      assert |keys| == |m.Keys| == |m|;
      I32(ToInt32(|keys|));
      WritePairs(keys, m);
      WireTheorems.Assoc(old(buf), I32Bytes(ToInt32(|keys|)), PairBytes(keys, m));
      return true;
    }

    method EncodeBalance(p: ProductStat)
      modifies this
      ensures buf == old(buf) + BalanceBytes(p)
    {
      hide U32Bytes, I32Bytes;
      I32(p.guid);
      F32(p.generation);
      F32(p.consumption);
      F32(p.delta);
      F32(p.perfectGeneration);
      F32(p.perfectConsumption);
    }

    method EncodeUpkeep(p: ProductStat)
      modifies this
      ensures buf == old(buf) + UpkeepBytes(p)
    {
      hide U32Bytes, I32Bytes;
      I32(p.buildings);
      I32(p.maintenance);
      F32(p.income);
      I32(p.profit);
      F32(p.summedProductivity);
      F32(p.avgProductivity);
    }

    method EncodeEntry(p: ProductStat) returns (ok: bool)
      modifies this
      ensures ok <==> PairsFit([p])
      ensures ok ==> buf == old(buf) + EntryBytes(p)
    {
      hide BalanceBytes, UpkeepBytes, PairsBytes;
      EncodeBalance(p);
      EncodeUpkeep(p);
      ok := Pairs(p.workforce);
      if !ok {
        assert p in [p];
        return;
      }
      ok := Pairs(p.buildingsByGuid);
      assert ok ==> buf == old(buf) + (FixedBytes(p) + (PairsBytes(p.workforce) + PairsBytes(p.buildingsByGuid)));
      assert p in [p];
    }

    method EncodeEntries(products: seq<ProductStat>) returns (ok: bool)
      modifies this
      ensures ok <==> PairsFit(products)
      ensures ok ==> buf == old(buf) + EntriesBytes(products)
    {
      hide EntryBytes;
      ok := true;
      var i := 0;
      while i < |products|
        invariant i <= |products| && ok && PairsFit(products[..i])
        invariant buf + EntriesBytes(products[i..]) == old(buf) + EntriesBytes(products)
      {
        ghost var before, rest := buf, EntriesBytes(products[i + 1..]);
        assert EntriesBytes(products[i..]) == EntryBytes(products[i]) + rest by {
          assert products[i..][1..] == products[i + 1..];
        }
        ok := EncodeEntry(products[i]);
        if !ok {
          assert products[i] in products;
          return;
        }
        WireTheorems.Assoc(before, EntryBytes(products[i]), rest);
        assert products[..i + 1] == products[..i] + [products[i]];
        assert products[i] in [products[i]];
        i := i + 1;
      }
      assert products[..i] == products;
    }

    method EncodeHeader(s: IslandSnapshot) returns (ok: bool)
      requires 0 <= s.key.island <= 255
      modifies this
      ensures ok <==> |s.name| <= 255
      ensures ok ==> buf == old(buf) + HeaderBytes(s)
    {
      hide I32Bytes, I64Bytes, StringBytes;
      U8(s.sessionId);
      U8(s.key.island);
      U8(s.areaIndex);
      I32(s.key.session);
      ok := String(s.name);
      if !ok {
        return;
      }
      I64(s.gameTimestamp);
    }

    method EncodeAreaStatistics(s: IslandSnapshot) returns (error: Option<EncodeError>)
      requires buf == [3]
      modifies this
      ensures match Body(AreaStatistics(s))
        case Err(e) => error == Some(e)
        case Ok(b) => error == None && buf == b
    {
      hide HeaderBytes, I32Bytes, EntriesBytes, PairsFit;
      if s.key.island < 0 || s.key.island > 255 {
        return Some(IslandOutOfRange);
      }
      var ok := EncodeHeader(s);
      if !ok {
        return Some(StringTooLong);
      }
      I32(ToInt32(|s.products|));
      ok := EncodeEntries(s.products);
      if !ok {
        return Some(TooManyPairs);
      }
      return None;
    }
  }

  method Collect(m: map<int32, int32>) returns (keys: seq<int32>)
    ensures DistinctKeys(keys, Same) && forall k :: k in keys <==> k in m.Keys
  {
    keys := [];
    var todo := m.Keys;
    while todo != {}
      invariant todo <= m.Keys && DistinctKeys(keys, Same)
      invariant forall k :: k in keys <==> k in m.Keys && k !in todo
      decreases todo
    {
      var k :| k in todo;
      assert forall i :: 0 <= i < |keys| ==> keys[i] in keys;
      keys := keys + [k];
      todo := todo - {k};
    }
  }

  function TypeOf(m: Message): byte {
    match m case Version(_) => 0 case SessionStart(_) => 1 case SessionEnd => 2 case AreaStatistics(_) => 3
  }

  method Encode(m: Message) returns (r: Result<bytes, EncodeError>)
    ensures r == WireFormat.Encode(m)
  {
    hide I32Bytes, StringBytes, StatisticsBytes, PairsFit;
    var w := new Writer(TypeOf(m));
    match m {
      case Version(v) =>
        w.I32(v);
      case SessionStart(h) =>
        var ok := w.String(h);
        if !ok {
          return Err(StringTooLong);
        }
      case SessionEnd =>
      case AreaStatistics(s) =>
        var error := w.EncodeAreaStatistics(s);
        if error.Some? {
          return Err(error.value);
        }
    }
    if |w.buf| > MAX_FRAME_SIZE {
      return Err(FrameTooLarge);
    }
    return Ok(w.buf);
  }
}
