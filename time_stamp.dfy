/**
 * An instant as milliseconds since the epoch plus the time-zone offset in
 * effect there, in whole quarters of an hour. Time stamps are immutable
 * values: equality looks at both fields, ordering at the instant only.
 */
module TimeStamps {
  import opened JavaInts

  /** Milliseconds in an hour. */
  const HOUR_MS: Int32 := 60 * 60 * 1000
  /** Milliseconds in a quarter of an hour. */
  const QUARTER_OF_AN_HOUR_MS: Int32 := 15 * 60 * 1000

  /** The largest quarter-hour count whose offset in milliseconds fits an `int`. */
  const MAX_EXACT_QH: Int32 := 2386

  datatype TimeStamp = TimeStamp(msSinceEpoch: Int64, quarterHourOffsetWrtUTC: Int32)

  /**
   * Java's `/` on `int` for the quarter-hour divisor: the quotient rounded
   * toward zero, so the remainder takes the sign of the dividend.
   */
  function QuartersOf(offsetMs: Int32): (r: Int32)
    ensures offsetMs >= 0 ==> 0 <= offsetMs - r * QUARTER_OF_AN_HOUR_MS < QUARTER_OF_AN_HOUR_MS
    ensures offsetMs < 0 ==> -QUARTER_OF_AN_HOUR_MS < offsetMs - r * QUARTER_OF_AN_HOUR_MS <= 0
  {
    var x: int := offsetMs;
    if x >= 0 then x / 900000 else -((-x) / 900000)
  }

  /** `getTimeZoneOffsetQH`: the zone's offset at the instant, in whole quarters toward zero. */
  function TimeZoneOffsetQH(offsetMs: Int32): (r: Int32)
    ensures -2386 <= r <= 2386
    ensures (r < 0 ==> offsetMs < 0) && (r > 0 ==> offsetMs > 0)
    ensures offsetMs % QUARTER_OF_AN_HOUR_MS == 0 ==> r * QUARTER_OF_AN_HOUR_MS == offsetMs
  {
    QuartersOf(offsetMs)
  }

  /**
   * `getDateTimeZoneFor`: the offset in milliseconds handed to the zone
   * factory, computed in `int` and so wrapped beyond `MAX_EXACT_QH` quarters.
   */
  function OffsetMillisFor(quarterHourOffset: Int32): (r: Int32)
    ensures -MAX_EXACT_QH <= quarterHourOffset <= MAX_EXACT_QH ==> r == quarterHourOffset * QUARTER_OF_AN_HOUR_MS
    ensures (r - quarterHourOffset * QUARTER_OF_AN_HOUR_MS) % 0x1_0000_0000 == 0
  {
    WrapInt32(quarterHourOffset * 900000)
  }

  /** `TimeStamp(long, int)`: the two fields as given. */
  function Create(msSinceEpoch: Int64, quarterHourOffsetWrtUTC: Int32): (r: TimeStamp)
    ensures r.msSinceEpoch == msSinceEpoch && r.quarterHourOffsetWrtUTC == quarterHourOffsetWrtUTC
  {
    TimeStamp(msSinceEpoch, quarterHourOffsetWrtUTC)
  }

  /**
   * `TimeStamp(DateTime)`: the instant of the date-time and the offset of its
   * zone there (`offsetMs`, which the zone database supplies), in quarters.
   */
  function FromDateTime(millis: Int64, offsetMs: Int32): (r: TimeStamp)
    ensures r.msSinceEpoch == millis
    ensures r.quarterHourOffsetWrtUTC == TimeZoneOffsetQH(offsetMs)
  {
    TimeStamp(millis, TimeZoneOffsetQH(offsetMs))
  }

  /** The copy constructor: the same two fields. */
  function Copy(t: TimeStamp): (r: TimeStamp)
    ensures r.msSinceEpoch == t.msSinceEpoch && r.quarterHourOffsetWrtUTC == t.quarterHourOffsetWrtUTC
  {
    TimeStamp(t.msSinceEpoch, t.quarterHourOffsetWrtUTC)
  }

  /** `equals`: both fields agree. */
  predicate Equals(a: TimeStamp, b: TimeStamp)
  {
    a.msSinceEpoch == b.msSinceEpoch && a.quarterHourOffsetWrtUTC == b.quarterHourOffsetWrtUTC
  }

  /** `compareTo`: the sign of the difference of the instants, computed without subtracting. */
  function CompareTo(a: TimeStamp, b: TimeStamp): (r: int)
    ensures r == 0 <==> a.msSinceEpoch == b.msSinceEpoch
    ensures r < 0 <==> a.msSinceEpoch < b.msSinceEpoch
    ensures r > 0 <==> a.msSinceEpoch > b.msSinceEpoch
    ensures r in {-1, 0, 1}
  {
    if a == b then 0
    else if a.msSinceEpoch == b.msSinceEpoch then 0
    else if a.msSinceEpoch < b.msSinceEpoch then -1
    else 1
  }

  predicate IsBefore(a: TimeStamp, b: TimeStamp)
  {
    a.msSinceEpoch < b.msSinceEpoch
  }

  predicate IsAfter(a: TimeStamp, b: TimeStamp)
  {
    b.msSinceEpoch < a.msSinceEpoch
  }

  /** The `int` that `(int) (ms ^ (ms >>> 32))` yields: the two halves of the `long` folded together. */
  function FoldLong(ms: Int64): Int32
  {
    var b := LongBits(ms);
    LowInt(b ^ (b >> 32))
  }

  /** `hashCode`: `31 * (31 * 1 + FoldLong(ms)) + qh`, each step wrapping in `int`. */
  function HashCode(t: TimeStamp): (r: Int32)
  {
    WrapInt32(31 * WrapInt32(31 + FoldLong(t.msSinceEpoch)) + t.quarterHourOffsetWrtUTC)
  }

  // ---------------------------------------------------------------------
  // Properties
  // ---------------------------------------------------------------------

  /** `equals` is exactly equality of the two fields. */
  lemma EqualsIsValueEquality(a: TimeStamp, b: TimeStamp)
    ensures Equals(a, b) <==> a == b
  {
  }

  /** A copy equals its original. */
  lemma CopyEquals(t: TimeStamp)
    ensures Equals(Copy(t), t) && CompareTo(Copy(t), t) == 0 && HashCode(Copy(t)) == HashCode(t)
  {
  }

  /** `compareTo` is antisymmetric and transitive: a total preorder on instants. */
  lemma CompareToIsPreorder(a: TimeStamp, b: TimeStamp, c: TimeStamp)
    ensures CompareTo(a, b) == -CompareTo(b, a)
    ensures CompareTo(a, b) <= 0 && CompareTo(b, c) <= 0 ==> CompareTo(a, c) <= 0
    ensures CompareTo(a, b) == 0 && CompareTo(b, c) == 0 ==> CompareTo(a, c) == 0
  {
  }

  /** Equal time stamps compare as 0 and hash alike. */
  lemma EqualsAgreesWithCompareAndHash(a: TimeStamp, b: TimeStamp)
    requires Equals(a, b)
    ensures CompareTo(a, b) == 0
    ensures HashCode(a) == HashCode(b)
  {
  }

  /**
   * The ordering is not consistent with `equals`: the same instant seen in
   * two zones compares as 0, yet the two are not equal.
   */
  lemma CompareToIgnoresZone()
    ensures CompareTo(TimeStamp(0, 0), TimeStamp(0, 4)) == 0
    ensures !Equals(TimeStamp(0, 0), TimeStamp(0, 4))
  {
  }

  /** `isBefore` and `isAfter` are the strict halves of `compareTo`, and mirror each other. */
  lemma BeforeAfterDuality(a: TimeStamp, b: TimeStamp)
    ensures IsBefore(a, b) <==> CompareTo(a, b) < 0
    ensures IsAfter(a, b) <==> CompareTo(a, b) > 0
    ensures IsBefore(a, b) <==> IsAfter(b, a)
    ensures !(IsBefore(a, b) && IsAfter(a, b))
    ensures !IsBefore(a, b) && !IsAfter(a, b) <==> CompareTo(a, b) == 0
  {
  }

  /**
   * A whole number of quarters survives the trip from quarters to
   * milliseconds (the zone of `toDateTime`) and back (`TimeStamp(DateTime)`).
   */
  lemma QuarterHourRoundTrip(qh: Int32)
    requires -MAX_EXACT_QH <= qh <= MAX_EXACT_QH
    ensures TimeZoneOffsetQH(OffsetMillisFor(qh)) == qh
  {
    var ms := OffsetMillisFor(qh);
    assert ms == qh * 900000;
    var r := QuartersOf(ms);
    if ms >= 0 {
      assert 0 <= (qh - r) * 900000 < 900000;
    } else {
      assert -900000 < (qh - r) * 900000 <= 0;
    }
  }

  /**
   * A zone offset that is no whole number of quarters loses its remainder
   * toward zero: the reconstructed offset lies between 0 and the original,
   * less than a quarter of an hour from it.
   */
  lemma OffsetTruncatesTowardZero(offsetMs: Int32)
    ensures var back := OffsetMillisFor(TimeZoneOffsetQH(offsetMs));
      (offsetMs >= 0 ==> 0 <= back <= offsetMs && offsetMs - back < QUARTER_OF_AN_HOUR_MS) &&
      (offsetMs < 0 ==> offsetMs <= back <= 0 && back - offsetMs < QUARTER_OF_AN_HOUR_MS)
  {
  }

  /** A time stamp taken from a date-time keeps its instant and a round quarter-hour offset. */
  lemma FromDateTimeKeepsInstant(millis: Int64, qh: Int32)
    requires -MAX_EXACT_QH <= qh <= MAX_EXACT_QH
    ensures FromDateTime(millis, OffsetMillisFor(qh)) == TimeStamp(millis, qh)
  {
    QuarterHourRoundTrip(qh);
  }

  /** The hash is the unwrapped formula `961 + 31 * FoldLong(ms) + qh` modulo 2^32. */
  lemma HashCodeFormula(t: TimeStamp)
    ensures (HashCode(t) - (961 + 31 * FoldLong(t.msSinceEpoch) + t.quarterHourOffsetWrtUTC)) % 0x1_0000_0000 == 0
  {
    HashStepsWrap(FoldLong(t.msSinceEpoch), t.quarterHourOffsetWrtUTC);
  }

  lemma HashStepsWrap(fold: Int32, q: Int32)
    ensures (WrapInt32(31 * WrapInt32(31 + fold) + q) - (961 + 31 * fold + q)) % 0x1_0000_0000 == 0
  {
    var w := WrapInt32(31 + fold);
    var k1 := (w - (31 + fold)) / 0x1_0000_0000;
    assert w - (31 + fold) == k1 * 0x1_0000_0000;
    var r := WrapInt32(31 * w + q);
    var k2 := (r - (31 * w + q)) / 0x1_0000_0000;
    assert r - (31 * w + q) == k2 * 0x1_0000_0000;
    assert r - (961 + 31 * fold + q) == (k2 + 31 * k1) * 0x1_0000_0000;
  }

  /** The hash of the epoch in UTC. */
  lemma HashOfEpoch()
    ensures HashCode(TimeStamp(0, 0)) == 961
  {
  }

  /** Unequal time stamps can share a hash: one millisecond before the epoch folds to 0 as well. */
  lemma HashCollision()
    ensures !Equals(TimeStamp(-1, 0), TimeStamp(0, 0))
    ensures HashCode(TimeStamp(-1, 0)) == HashCode(TimeStamp(0, 0))
  {
    assert LongBits(-1) == 0xFFFF_FFFF_FFFF_FFFF;
    assert FoldLong(-1) == 0;
  }
}
