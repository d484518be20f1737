/** The pipe's message format: what the bytes of a message are, and what bytes mean. */
module WireFormat {
  import opened Model

  type bytes = seq<byte>

  datatype Message =
    | Version(version: int32)
    | SessionStart(headline: bytes)
    | SessionEnd
    | AreaStatistics(snapshot: IslandSnapshot)

  const SUPPORTED_VERSION: int32 := 2
  const MAX_FRAME_SIZE: nat := 0x10_0000
  const MIN_ENTRY_SIZE: nat := 56
  const PAIR_SIZE: nat := 8
  const MAX_INT32: int := 0x7FFF_FFFF

  datatype DecodeError = ShortFrame | UnknownType
  datatype EncodeError = IslandOutOfRange | StringTooLong | TooManyPairs | FrameTooLarge
  datatype Result<+T, +E> = Ok(value: T) | Err(error: E)

  /** Go's conversion of an integer to int32: the low 32 bits, as a signed number. */
  function ToInt32(n: int): int32 {
    var low := n % 0x1_0000_0000;
    if low < 0x8000_0000 then low else low - 0x1_0000_0000
  }

  // --- writing ---

  function U32Bytes(u: float32): bytes {
    [u % 0x100, u / 0x100 % 0x100, u / 0x1_0000 % 0x100, u / 0x100_0000]
  }

  function Unsigned(v: int32): float32 { if v < 0 then v + 0x1_0000_0000 else v }

  function I32Bytes(v: int32): bytes { U32Bytes(Unsigned(v)) }

  function I64Bytes(v: int64): bytes {
    var u := if v < 0 then v + 0x1_0000_0000_0000_0000 else v;
    U32Bytes(u % 0x1_0000_0000) + U32Bytes(u / 0x1_0000_0000)
  }

  function StringBytes(s: bytes): bytes
    requires |s| <= 255
  {
    [|s|] + s
  }

  ghost function Least(s: set<int32>): (k: int32)
    requires s != {}
    ensures k in s && forall j :: j in s ==> k <= j
  {
    var x :| x in s;
    assert forall j :: j in s ==> j == x || j in s - {x};
    if s - {x} == {} then x
    else
      var least := Least(s - {x});
      if x < least then x else least
  }

  /** The keys in ascending order. */
  ghost function SortedKeys(s: set<int32>): (keys: seq<int32>)
    ensures forall k :: k in keys <==> k in s
    ensures |keys| == |s|
  {
    if s == {} then [] else var k := Least(s); [k] + SortedKeys(s - {k})
  }

  function PairBytes(keys: seq<int32>, m: map<int32, int32>): bytes
    requires forall k :: k in keys ==> k in m
  {
    if keys == [] then [] else I32Bytes(keys[0]) + I32Bytes(m[keys[0]]) + PairBytes(keys[1..], m)
  }

  ghost function PairsBytes(m: map<int32, int32>): bytes {
    I32Bytes(ToInt32(|m|)) + PairBytes(SortedKeys(m.Keys), m)
  }

  function BalanceBytes(p: ProductStat): bytes {
    I32Bytes(p.guid) + U32Bytes(p.generation) + U32Bytes(p.consumption) + U32Bytes(p.delta)
    + U32Bytes(p.perfectGeneration) + U32Bytes(p.perfectConsumption)
  }

  function UpkeepBytes(p: ProductStat): bytes {
    I32Bytes(p.buildings) + I32Bytes(p.maintenance) + U32Bytes(p.income) + I32Bytes(p.profit)
    + U32Bytes(p.summedProductivity) + U32Bytes(p.avgProductivity)
  }

  function FixedBytes(p: ProductStat): bytes { BalanceBytes(p) + UpkeepBytes(p) }

  ghost function EntryBytes(p: ProductStat): bytes {
    FixedBytes(p) + (PairsBytes(p.workforce) + PairsBytes(p.buildingsByGuid))
  }

  ghost function EntriesBytes(products: seq<ProductStat>): bytes {
    if products == [] then [] else EntryBytes(products[0]) + EntriesBytes(products[1..])
  }

  function HeaderBytes(s: IslandSnapshot): bytes
    requires 0 <= s.key.island <= 255 && |s.name| <= 255
  {
    [s.sessionId] + ([s.key.island] + ([s.areaIndex] +
      (I32Bytes(s.key.session) + (StringBytes(s.name) + I64Bytes(s.gameTimestamp)))))
  }

  ghost function StatisticsBytes(s: IslandSnapshot): bytes
    requires 0 <= s.key.island <= 255 && |s.name| <= 255
  {
    HeaderBytes(s) + (I32Bytes(ToInt32(|s.products|)) + EntriesBytes(s.products))
  }

  predicate PairsFit(products: seq<ProductStat>) {
    forall p :: p in products ==> |p.workforce| <= MAX_INT32 && |p.buildingsByGuid| <= MAX_INT32
  }

  ghost function Body(m: Message): Result<bytes, EncodeError> {
    match m
    case Version(v) => Ok([0] + I32Bytes(v))
    case SessionStart(h) => if |h| > 255 then Err(StringTooLong) else Ok([1] + StringBytes(h))
    case SessionEnd => Ok([2])
    case AreaStatistics(s) =>
      if !(0 <= s.key.island <= 255) then Err(IslandOutOfRange)
      else if |s.name| > 255 then Err(StringTooLong)
      else if !PairsFit(s.products) then Err(TooManyPairs)
      else Ok([3] + StatisticsBytes(s))
  }

  /** The payload of a message: its type byte, then its body. */
  ghost function Encode(m: Message): Result<bytes, EncodeError> {
    match Body(m)
    case Err(e) => Err(e)
    case Ok(b) => if |b| > MAX_FRAME_SIZE then Err(FrameTooLarge) else Ok(b)
  }

  // --- reading ---

  /** What reading a value off the front of some bytes gives: the value and the bytes behind it. */
  datatype Parsed<+T> = Short | Parsed(value: T, rest: bytes) {
    predicate IsFailure() { Short? }
    function PropagateFailure<U>(): Parsed<U> requires Short? { Short }
    function Extract(): (T, bytes) requires Parsed? { (value, rest) }
  }

  function ParseU8(b: bytes): Parsed<byte> {
    if |b| < 1 then Short else Parsed(b[0], b[1..])
  }

  function ParseU32(b: bytes): (p: Parsed<float32>)
    ensures p.Parsed? ==> |p.rest| + 4 == |b|
  {
    if |b| < 4 then Short
    else Parsed(b[0] as int + b[1] as int * 0x100 + b[2] as int * 0x1_0000 + b[3] as int * 0x100_0000, b[4..])
  }

  function Signed(u: float32): int32 { if u < 0x8000_0000 then u else u - 0x1_0000_0000 }

  function ParseI32(b: bytes): (p: Parsed<int32>)
    ensures p.Parsed? ==> |p.rest| + 4 == |b|
  {
    var (u, rest) :- ParseU32(b);
    Parsed(Signed(u), rest)
  }

  function ParseI64(b: bytes): Parsed<int64> {
    if |b| < 8 then Short
    else
      var u := ParseU32(b).value + ParseU32(b[4..]).value * 0x1_0000_0000;
      Parsed(if u < 0x8000_0000_0000_0000 then u else u - 0x1_0000_0000_0000_0000, b[8..])
  }

  function ParseString(b: bytes): Parsed<bytes> {
    var (n, rest) :- ParseU8(b);
    if |rest| < n then Short else Parsed(rest[..n], rest[n..])
  }

  /** A count the remaining bytes cannot satisfy is refused before anything is read. */
  function ParseCount(b: bytes, elemSize: nat): Parsed<nat>
    requires elemSize > 0
  {
    var (n, rest) :- ParseI32(b);
    if n < 0 || n > |rest| / elemSize then Short else Parsed(n, rest)
  }

  /** Amounts of one key accumulate, wrapping around like int32 does. */
  function Accumulate(m: map<int32, int32>, guid: int32, amount: int32): map<int32, int32> {
    m[guid := ToInt32((if guid in m then m[guid] else 0) + amount)]
  }

  function ParsePairList(n: nat, b: bytes, m: map<int32, int32>): Parsed<map<int32, int32>> {
    if n == 0 then Parsed(m, b)
    else
      var (guid, b1) :- ParseI32(b);
      var (amount, b2) :- ParseI32(b1);
      ParsePairList(n - 1, b2, Accumulate(m, guid, amount))
  }

  function ParsePairs(b: bytes): Parsed<map<int32, int32>> {
    var (n, rest) :- ParseCount(b, PAIR_SIZE);
    ParsePairList(n, rest, map[])
  }

  const NO_STAT := ProductStat(0, 0, 0, 0, 0, 0, 0, 0, 0, 0, 0, 0, map[], map[])

  function ParseBalance(b: bytes): Parsed<ProductStat> {
    var (guid, b1) :- ParseI32(b);
    var (generation, b2) :- ParseU32(b1);
    var (consumption, b3) :- ParseU32(b2);
    var (delta, b4) :- ParseU32(b3);
    var (perfectGeneration, b5) :- ParseU32(b4);
    var (perfectConsumption, b6) :- ParseU32(b5);
    Parsed(NO_STAT.(guid := guid, generation := generation, consumption := consumption, delta := delta,
                    perfectGeneration := perfectGeneration, perfectConsumption := perfectConsumption), b6)
  }

  function ParseUpkeep(p: ProductStat, b: bytes): Parsed<ProductStat> {
    var (buildings, b1) :- ParseI32(b);
    var (maintenance, b2) :- ParseI32(b1);
    var (income, b3) :- ParseU32(b2);
    var (profit, b4) :- ParseI32(b3);
    var (summed, b5) :- ParseU32(b4);
    var (average, b6) :- ParseU32(b5);
    Parsed(p.(buildings := buildings, maintenance := maintenance, income := income, profit := profit,
              summedProductivity := summed, avgProductivity := average), b6)
  }

  /** The twelve fixed fields of an entry, with empty pair lists. */
  function ParseFixed(b: bytes): Parsed<ProductStat> {
    var (balance, b1) :- ParseBalance(b);
    ParseUpkeep(balance, b1)
  }

  function ParseEntry(b: bytes): Parsed<ProductStat> {
    var (fixed, b1) :- ParseFixed(b);
    var (workforce, b2) :- ParsePairs(b1);
    var (buildings, b3) :- ParsePairs(b2);
    Parsed(fixed.(workforce := workforce, buildingsByGuid := buildings), b3)
  }

  function ParseEntries(n: nat, b: bytes): Parsed<seq<ProductStat>> {
    if n == 0 then Parsed([], b)
    else
      var (p, b1) :- ParseEntry(b);
      var (rest, b2) :- ParseEntries(n - 1, b1);
      Parsed([p] + rest, b2)
  }

  /** An island's snapshot without its products. */
  function ParseHeader(b: bytes, receivedAt: Time): Parsed<IslandSnapshot> {
    var (sessionId, b1) :- ParseU8(b);
    var (island, b2) :- ParseU8(b1);
    var (area, b3) :- ParseU8(b2);
    var (session, b4) :- ParseI32(b3);
    var (name, b5) :- ParseString(b4);
    var (stamp, b6) :- ParseI64(b5);
    Parsed(IslandSnapshot(IslandKey(session, island), sessionId, area, name, receivedAt, stamp, []), b6)
  }

  function ParseStatistics(b: bytes, receivedAt: Time): Parsed<IslandSnapshot> {
    var (header, b1) :- ParseHeader(b, receivedAt);
    var (n, b2) :- ParseCount(b1, MIN_ENTRY_SIZE);
    var (products, b3) :- ParseEntries(n, b2);
    Parsed(header.(products := products), b3)
  }


  /** What a payload means. Bytes behind a complete message are ignored. */
  function Decode(payload: bytes, receivedAt: Time): Result<Message, DecodeError> {
    match ParseU8(payload)
    case Short => Err(ShortFrame)
    case Parsed(tag, b) =>
      if tag == 0 then
        (match ParseI32(b) case Short => Err(ShortFrame) case Parsed(v, _) => Ok(Version(v)))
      else if tag == 1 then
        (match ParseString(b) case Short => Err(ShortFrame) case Parsed(h, _) => Ok(SessionStart(h)))
      else if tag == 2 then Ok(SessionEnd)
      else if tag == 3 then
        (match ParseStatistics(b, receivedAt) case Short => Err(ShortFrame) case Parsed(s, _) => Ok(AreaStatistics(s)))
      else Err(UnknownType)
  }
}
