/**
 * The inclusive value ranges of integers stored in a given number of bits,
 * in plain binary (unsigned) or two's complement (signed).
 */
module BigIntegerUtils {
  import opened Wrappers
  import opened JavaInts

  /** The IllegalArgumentException raised for a negative number of bits. */
  datatype ArgumentError = NegativeBits

  function Pow2(n: nat): (r: int)
    ensures r >= 1
  {
    if n == 0 then 1 else 2 * Pow2(n - 1)
  }

  lemma {:induction false} Pow2Add(a: nat, b: nat)
    ensures Pow2(a + b) == Pow2(a) * Pow2(b)
    decreases b
  {
    if b > 0 {
      Pow2Add(a, b - 1);
    }
  }

  /** Smallest value storable in `numberOfBits` bits. */
  function GetMinValue(numberOfBits: Int32, signed: bool): (r: Result<int, ArgumentError>)
    ensures r.Failure? <==> numberOfBits < 0
    ensures r.Failure? ==> r.error == NegativeBits
    ensures r.Success? ==> r.value <= 0
    ensures r.Success? && (!signed || numberOfBits == 0) ==> r.value == 0
    ensures r.Success? && signed && numberOfBits > 0 ==> r.value + Pow2(numberOfBits - 1) == 0
  {
    if numberOfBits < 0 then Failure(NegativeBits)
    else if !signed || numberOfBits == 0 then Success(0)
    else Success(-Pow2(numberOfBits - 1))
  }

  /** Largest value storable in `numberOfBits` bits. */
  function GetMaxValue(numberOfBits: Int32, signed: bool): (r: Result<int, ArgumentError>)
    ensures r.Failure? <==> numberOfBits < 0
    ensures r.Failure? ==> r.error == NegativeBits
    ensures r.Success? ==> r.value >= 0
    ensures r.Success? && numberOfBits == 0 ==> r.value == 0
    ensures r.Success? && numberOfBits > 0 ==>
              r.value + 1 == (if signed then Pow2(numberOfBits - 1) else Pow2(numberOfBits))
  {
    if numberOfBits < 0 then Failure(NegativeBits)
    else if numberOfBits == 0 then Success(0)
    else if signed then Success(Pow2(numberOfBits - 1) - 1)
    else Success(Pow2(numberOfBits) - 1)
  }

  /** How many distinct bit patterns `numberOfBits` bits have. */
  function NumberOfPossibleValues(numberOfBits: Int32): (r: Result<int, ArgumentError>)
    ensures r.Failure? <==> numberOfBits < 0
    ensures r.Failure? ==> r.error == NegativeBits
    ensures r.Success? ==> r.value == Pow2(numberOfBits) && r.value >= 1
  {
    if numberOfBits < 0 then Failure(NegativeBits)
    else Success(Pow2(numberOfBits))
  }

  /** `value` lies in the inclusive range `[GetMinValue, GetMaxValue]` (false for a negative width). */
  predicate InRange(value: int, numberOfBits: Int32, signed: bool)
  {
    numberOfBits >= 0 &&
    GetMinValue(numberOfBits, signed).value <= value <= GetMaxValue(numberOfBits, signed).value
  }

  /** Every non-negative width admits zero, in both signednesses. */
  lemma ZeroInRange(numberOfBits: Int32, signed: bool)
    requires numberOfBits >= 0
    ensures GetMinValue(numberOfBits, signed).value <= 0 <= GetMaxValue(numberOfBits, signed).value
    ensures InRange(0, numberOfBits, signed)
  {
  }

  /** The range holds exactly as many values as there are bit patterns of that width. */
  lemma RangeSize(numberOfBits: Int32, signed: bool)
    requires numberOfBits >= 0
    ensures GetMaxValue(numberOfBits, signed).value - GetMinValue(numberOfBits, signed).value + 1
            == NumberOfPossibleValues(numberOfBits).value
  {
    if numberOfBits > 0 {
      assert Pow2(numberOfBits) == 2 * Pow2(numberOfBits - 1);
    }
  }

  /** A zero-bit width holds the single value 0. */
  lemma ZeroWidthHoldsOnlyZero(value: int, signed: bool)
    ensures InRange(value, 0, signed) <==> value == 0
  {
  }

  /** No negative value is in an unsigned range. */
  lemma UnsignedRangeIsNonNegative(value: int, numberOfBits: Int32)
    ensures InRange(value, numberOfBits, false) ==> value >= 0
  {
  }

  /** Widening by one bit keeps every value in range (the ranges are nested). */
  lemma RangeGrowsWithWidth(value: int, numberOfBits: Int32, signed: bool)
    requires 0 <= numberOfBits < 0x7FFF_FFFF
    requires InRange(value, numberOfBits, signed)
    ensures InRange(value, numberOfBits + 1, signed)
  {
  }
}
