/** The data every component passes on: islands, products and the numbers the game reports. */
module Model {

  type byte = x: int | 0 <= x < 0x100
  type int32 = x: int | -0x8000_0000 <= x < 0x8000_0000
  type int64 = x: int | -0x8000_0000_0000_0000 <= x < 0x8000_0000_0000_0000

  /** A float32 as it is on the wire: an opaque 32-bit pattern. */
  type float32 = x: int | 0 <= x < 0x1_0000_0000

  /** A point in time on the receiver's clock, in nanoseconds since 1970. ZeroTime, the unset value, is the beginning
      of the year 1. */
  type Time = int
  const ZeroTime: Time := -62_135_596_800 * 1_000_000_000

  /** Times and durations count nanoseconds; the database keeps milliseconds. */
  const MILLISECOND: int := 1_000_000

  function Millis(t: Time): int { t / MILLISECOND }

  /** A row's id in the database. */
  type RowId = nat

  datatype Option<+T> = None | Some(value: T)

  function OptionList<T>(o: Option<T>): seq<T> { match o case None => [] case Some(x) => [x] }

  datatype IslandKey = IslandKey(session: int32, island: int32)

  datatype ProductStat = ProductStat(
    guid: int32,
    generation: float32,
    consumption: float32,
    delta: float32,
    perfectGeneration: float32,
    perfectConsumption: float32,
    buildings: int32,
    maintenance: int32,
    income: float32,
    profit: int32,
    summedProductivity: float32,
    avgProductivity: float32,
    workforce: map<int32, int32>,
    buildingsByGuid: map<int32, int32>)

  datatype IslandSnapshot = IslandSnapshot(
    key: IslandKey,
    sessionId: byte,
    areaIndex: byte,
    name: seq<byte>,
    receivedAt: Time,
    gameTimestamp: int64,
    products: seq<ProductStat>)

  /** The order every list of islands uses: session first, then island. */
  predicate IslandLeq(a: IslandKey, b: IslandKey) {
    a.session < b.session || (a.session == b.session && a.island <= b.island)
  }

  function SnapshotKey(s: IslandSnapshot): IslandKey { s.key }

  function GuidOf(p: ProductStat): int32 { p.guid }

  predicate GuidLeq(a: int32, b: int32) { a <= b }

  /** What a float32 pattern means where the program computes with it. */
  datatype Float = NaN | PosInf | NegInf | Finite(value: real) {
    predicate Negative() { NegInf? || (Finite? && value < 0.0) }
    predicate AtLeastZero() { PosInf? || (Finite? && value >= 0.0) }

    /** Comparisons as the program's are: NaN is neither less nor greater than anything, nor equal to it. */
    predicate Less(f: Float) {
      !NaN? && !f.NaN? && this != f && (NegInf? || f.PosInf? || (Finite? && f.Finite? && value < f.value))
    }

    predicate AtMost(f: Float) { Less(f) || (this == f && !NaN?) }

    function Half(): Float { if Finite? then Finite(value / 2.0) else this }
  }

  function TwoTo(e: int): real
    decreases if e < 0 then -e else e
  {
    if e == 0 then 1.0 else if e > 0 then 2.0 * TwoTo(e - 1) else TwoTo(e + 1) / 2.0
  }

  /** IEEE 754 single precision; widening it to double precision is exact. */
  function FloatOf(bits: float32): Float {
    var sign := if bits >= 0x8000_0000 then -1.0 else 1.0;
    var exponent := bits / 0x80_0000 % 0x100;
    var fraction := bits % 0x80_0000;
    if exponent == 0xFF then
      if fraction != 0 then NaN else if sign < 0.0 then NegInf else PosInf
    else if exponent == 0 then
      Finite(sign * fraction as real * TwoTo(-149))
    else
      Finite(sign * (0x80_0000 + fraction) as real * TwoTo(exponent - 150))
  }
}
