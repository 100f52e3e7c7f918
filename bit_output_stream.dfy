/**
 * A stream that bits are written to, most significant bit first, with a
 * running bit count and a `closed` flag. The abstract `writeBit` sink of the
 * Java class is the sequence `sink` of every bit it has received.
 */
module BitOutputStream {
  import opened Wrappers
  import opened JavaInts
  import opened BigIntegerUtils
  import opened Bits

  datatype Error =
    | StreamClosed            // IOException: "This stream is closed"
    | NegativeNumberOfBits    // IllegalArgumentException
    | NegativeUnsignedValue   // IllegalArgumentException
    | ValueOutOfRange         // IllegalArgumentException
    | NegativeOffset          // IllegalArgumentException
    | NegativeLength          // IllegalArgumentException
    | ArrayIndexOutOfBounds   // ArrayIndexOutOfBoundsException

  /** The argument checks of `write(BigInteger, int, boolean)`, made in the source's order. */
  function IntegerWriteCheck(value: int, numberOfBits: Int32, signed: bool): (r: Outcome<Error>)
    ensures r.Pass? <==> InRange(value, numberOfBits, signed)
    ensures r == Fail(NegativeNumberOfBits) <==> numberOfBits < 0
    ensures r == Fail(NegativeUnsignedValue) <==> numberOfBits >= 0 && !signed && value < 0
    ensures r == Fail(ValueOutOfRange) <==> numberOfBits >= 0 && (signed || value >= 0) && !InRange(value, numberOfBits, signed)
  {
    if numberOfBits < 0 then Fail(NegativeNumberOfBits)
    else if !signed && value < 0 then Fail(NegativeUnsignedValue)
    else
      var minValue := GetMinValue(numberOfBits, signed).value;
      var maxValue := GetMaxValue(numberOfBits, signed).value;
      if value < minValue || value > maxValue then Fail(ValueOutOfRange) else Pass
  }

  /** With zero bits only 0 is accepted. */
  lemma ZeroBitsAcceptOnlyZero(value: int, signed: bool)
    ensures IntegerWriteCheck(value, 0, signed).Pass? <==> value == 0
  {
    ZeroWidthHoldsOnlyZero(value, signed);
  }

  /** An unsigned write of -1 fails whatever the width. */
  lemma MinusOneIsNeverUnsigned(numberOfBits: Int32)
    ensures IntegerWriteCheck(-1, numberOfBits, false).Fail?
  {
  }

  /** Every Java `short`, `int` and `long` passes the checks of the typed writes. */
  lemma TypedValuesFit(s: Int16, i: Int32, l: Int64)
    ensures IntegerWriteCheck(s, 16, true) == Pass
    ensures IntegerWriteCheck(i, 32, true) == Pass
    ensures IntegerWriteCheck(l, 64, true) == Pass
  {
    assert Pow2(15) == 0x8000;
    assert Pow2(16) == 0x1_0000;
    Pow2Add(16, 15);
    Pow2Add(16, 16);
    Pow2Add(32, 31);
  }

  /**
   * The checks of `write(byte[], int, int)` with unbounded arithmetic: the
   * sub-array `[off, off + len)` must lie inside the array.
   */
  function SubArrayCheck(length: nat, off: Int32, len: Int32): (r: Outcome<Error>)
    ensures r.Pass? <==> 0 <= off && 0 <= len && off + len <= length
    ensures r == Fail(ArrayIndexOutOfBounds) ==> off + len > length
  {
    if off < 0 then Fail(NegativeOffset)
    else if len < 0 then Fail(NegativeLength)
    else if off + len > length then Fail(ArrayIndexOutOfBounds)
    else Pass
  }

  /** The same checks as the source writes them: `off + len` is computed in `int` and can wrap. */
  function SubArrayCheckAsWritten(length: nat, off: Int32, len: Int32): (r: Outcome<Error>)
    requires length < 0x8000_0000
    ensures 0 <= off && 0 <= len && off + len < 0x8000_0000 ==> r == SubArrayCheck(length, off, len)
  {
    if off < 0 then Fail(NegativeOffset)
    else if len < 0 then Fail(NegativeLength)
    else if WrapInt32(off + len) > length then Fail(ArrayIndexOutOfBounds)
    else Pass
  }

  /**
   * The bits the source's loop emits for `write(bytes, off, len)` once its
   * checks pass: `bytes[off + i]` for increasing `i` until the index leaves
   * the array, where `ArrayIndexOutOfBoundsException` stops it.
   */
  function EmittedAsWritten(bytes: seq<Int8>, off: nat, len: nat): (r: seq<bool>)
    ensures off + len <= |bytes| ==> r == EncodeBytes(bytes[off..off + len])
  {
    if off + len <= |bytes| then EncodeBytes(bytes[off..off + len])
    else if off <= |bytes| then EncodeBytes(bytes[off..])
    else []
  }

  /**
   * A slice that runs past the end is let through by the wrapped sum, and 5
   * bytes (40 bits) are written before the write fails; the unbounded check
   * rejects the same call before any bit is written.
   */
  lemma SubArrayOverflowWritesPartially(bytes: seq<Int8>)
    requires |bytes| == 10
    ensures SubArrayCheckAsWritten(10, 5, 0x7FFF_FFFF).Pass?
    ensures 5 + 0x7FFF_FFFF > |bytes|
    ensures |EmittedAsWritten(bytes, 5, 0x7FFF_FFFF)| == 40
    ensures SubArrayCheck(10, 5, 0x7FFF_FFFF) == Fail(ArrayIndexOutOfBounds)
  {
    assert WrapInt32(5 + 0x7FFF_FFFF) == -0x7FFF_FFFC;
  }

  class BitOutputStream {
    var closed: bool
    var numberOfBitsWritten: nat
    /** Every bit passed to the abstract `writeBit`, oldest first. */
    var sink: seq<bool>

    ghost predicate Valid()
      reads this
    {
      numberOfBitsWritten == |sink|
    }

    constructor ()
      ensures Valid() && !closed && sink == [] && numberOfBitsWritten == 0
    {
      closed := false;
      numberOfBitsWritten := 0;
      sink := [];
    }

    /** `write(boolean)`: the one primitive every other write is built on. */
    method WriteBit(bit: bool) returns (r: Outcome<Error>)
      requires Valid()
      modifies this
      ensures Valid() && closed == old(closed)
      ensures old(closed) ==> r == Fail(StreamClosed) && sink == old(sink)
      ensures !old(closed) ==> r == Pass && sink == old(sink) + [bit]
      ensures numberOfBitsWritten == old(numberOfBitsWritten) + (if old(closed) then 0 else 1)
    {
      if closed {
        return Fail(StreamClosed);
      }
      sink := sink + [bit];
      numberOfBitsWritten := numberOfBitsWritten + 1;
      r := Pass;
    }

    /** `write(boolean[])`: the bits in array order. */
    method WriteBits(bits: array<bool>) returns (r: Outcome<Error>)
      requires Valid()
      modifies this
      ensures Valid() && closed == old(closed)
      ensures old(closed) && bits.Length > 0 ==> r == Fail(StreamClosed) && sink == old(sink)
      ensures !(old(closed) && bits.Length > 0) ==> r == Pass && sink == old(sink) + bits[..]
    {
      var i := 0;
      while i < bits.Length
        invariant 0 <= i <= bits.Length
        invariant Valid() && closed == old(closed)
        invariant old(closed) ==> i == 0
        invariant sink == old(sink) + bits[..i]
      {
        r := WriteBit(bits[i]);
        if r.Fail? {
          return;
        }
        assert bits[..i + 1] == bits[..i] + [bits[i]];
        i := i + 1;
      }
      assert bits[..i] == bits[..];
      r := Pass;
    }

    /**
     * `write(byte)`: bit `i` of the byte for `i` from 7 down to 0. The source
     * tests `(b & (1 << i)) != 0`, which for `i < 8` is bit `i` of the
     * byte's two's complement, that is `TestBit(b, i)`.
     */
    method WriteByte(b: Int8) returns (r: Outcome<Error>)
      requires Valid()
      modifies this
      ensures Valid() && closed == old(closed)
      ensures old(closed) ==> r == Fail(StreamClosed) && sink == old(sink)
      ensures !old(closed) ==> r == Pass && sink == old(sink) + EncodeByte(b)
    {
      ghost var bits := EncodeByte(b);
      var i := 8;
      while i > 0
        invariant 0 <= i <= 8
        invariant Valid() && closed == old(closed)
        invariant old(closed) ==> i == 8
        invariant sink == old(sink) + bits[..8 - i]
      {
        i := i - 1;
        EncodeBitAt(b, 8, 7 - i);
        ghost var before := sink;
        r := WriteBit(TestBit(b, i));
        if r.Fail? {
          return;
        }
        PrefixExtend(old(sink), bits, 7 - i, before, sink);
      }
      assert bits[..8] == bits;
      r := Pass;
    }

    /**
     * `write(byte[], int, int)`: after the sub-array checks, `bytes[off]` up
     * to `bytes[off + len - 1]`, each as 8 bits. The checks are those of
     * `SubArrayCheck`; see `SubArrayCheckAsWritten` for the source's own.
     */
    method WriteByteRange(bytes: array<Int8>, off: Int32, len: Int32) returns (r: Outcome<Error>)
      requires Valid()
      modifies this
      ensures Valid() && closed == old(closed)
      ensures SubArrayCheck(bytes.Length, off, len).Fail? ==>
                r == SubArrayCheck(bytes.Length, off, len) && sink == old(sink)
      ensures SubArrayCheck(bytes.Length, off, len).Pass? && old(closed) && len > 0 ==>
                r == Fail(StreamClosed) && sink == old(sink)
      ensures SubArrayCheck(bytes.Length, off, len).Pass? && !(old(closed) && len > 0) ==>
                r == Pass && sink == old(sink) + EncodeBytes(bytes[off..off + len])
    {
      r := SubArrayCheck(bytes.Length, off, len);
      if r.Pass? {
        r := WriteSlice(bytes, off, len);
      }
    }

    /** The loop of `write(byte[], int, int)`: `count` bytes from `start` on, in order. */
    method WriteSlice(bytes: array<Int8>, start: nat, count: nat) returns (r: Outcome<Error>)
      requires Valid()
      requires start + count <= bytes.Length
      modifies this
      ensures Valid() && closed == old(closed)
      ensures old(closed) && count > 0 ==> r == Fail(StreamClosed) && sink == old(sink)
      ensures !(old(closed) && count > 0) ==> r == Pass && sink == old(sink) + EncodeBytes(bytes[start..start + count])
    {
      ghost var data := bytes[start..start + count];
      var i: nat := 0;
      while i < count
        invariant i <= count
        invariant Valid() && closed == old(closed)
        invariant old(closed) ==> i == 0
        invariant sink == old(sink) + EncodeBytes(data[..i])
      {
        var b := bytes[start + i];
        assert b == data[i];
        ghost var before := sink;
        r := WriteByte(b);
        if r.Fail? {
          return;
        }
        EncodeBytesExtend(old(sink), data, 0, i, before, sink);
        i := i + 1;
      }
      assert data[..i] == data;
      r := Pass;
    }

    /** `write(byte[])`: the whole array. */
    method WriteBytes(bytes: array<Int8>) returns (r: Outcome<Error>)
      requires Valid()
      requires bytes.Length < 0x8000_0000
      modifies this
      ensures Valid() && closed == old(closed)
      ensures old(closed) && bytes.Length > 0 ==> r == Fail(StreamClosed) && sink == old(sink)
      ensures !(old(closed) && bytes.Length > 0) ==> r == Pass && sink == old(sink) + EncodeBytes(bytes[..])
    {
      r := WriteByteRange(bytes, 0, bytes.Length);
      assert bytes[0..bytes.Length] == bytes[..];
    }

    /**
     * `write(BigInteger, int, boolean)`: the argument checks, then bits
     * `numberOfBits - 1` down to 0 of the value (MSB first).
     */
    method WriteBigInteger(value: int, numberOfBits: Int32, signed: bool) returns (r: Outcome<Error>)
      requires Valid()
      modifies this
      ensures Valid() && closed == old(closed)
      ensures IntegerWriteCheck(value, numberOfBits, signed).Fail? ==>
                r == IntegerWriteCheck(value, numberOfBits, signed) && sink == old(sink)
      ensures IntegerWriteCheck(value, numberOfBits, signed).Pass? && old(closed) && numberOfBits > 0 ==>
                r == Fail(StreamClosed) && sink == old(sink)
      ensures IntegerWriteCheck(value, numberOfBits, signed).Pass? && !(old(closed) && numberOfBits > 0) ==>
                r == Pass && sink == old(sink) + Encode(value, numberOfBits)
      ensures numberOfBitsWritten == old(numberOfBitsWritten) + |sink| - |old(sink)|
    {
      r := IntegerWriteCheck(value, numberOfBits, signed);
      if r.Fail? {
        return;
      }
      ghost var bits := Encode(value, numberOfBits);
      var i := numberOfBits;
      while i > 0
        invariant 0 <= i <= numberOfBits
        invariant Valid() && closed == old(closed)
        invariant old(closed) ==> i == numberOfBits
        invariant sink == old(sink) + bits[..numberOfBits - i]
      {
        i := i - 1;
        EncodeBitAt(value, numberOfBits, numberOfBits - 1 - i);
        ghost var before := sink;
        r := WriteBit(TestBit(value, i));
        if r.Fail? {
          return;
        }
        PrefixExtend(old(sink), bits, numberOfBits - 1 - i, before, sink);
      }
      assert bits[..numberOfBits] == bits;
      r := Pass;
    }

    /** `write(long, int, boolean)`: the `long` is widened to a BigInteger. */
    method WriteLongBits(value: Int64, numberOfBits: Int32, signed: bool) returns (r: Outcome<Error>)
      requires Valid()
      modifies this
      ensures Valid() && closed == old(closed)
      ensures IntegerWriteCheck(value, numberOfBits, signed).Fail? ==>
                r == IntegerWriteCheck(value, numberOfBits, signed) && sink == old(sink)
      ensures IntegerWriteCheck(value, numberOfBits, signed).Pass? && old(closed) && numberOfBits > 0 ==>
                r == Fail(StreamClosed) && sink == old(sink)
      ensures IntegerWriteCheck(value, numberOfBits, signed).Pass? && !(old(closed) && numberOfBits > 0) ==>
                r == Pass && sink == old(sink) + Encode(value, numberOfBits)
    {
      r := WriteBigInteger(value, numberOfBits, signed);
    }

    /** `write(short)`: a signed 16-bit write. */
    method WriteShort(value: Int16) returns (r: Outcome<Error>)
      requires Valid()
      modifies this
      ensures Valid() && closed == old(closed)
      ensures old(closed) ==> r == Fail(StreamClosed) && sink == old(sink)
      ensures !old(closed) ==> r == Pass && sink == old(sink) + Encode(value, 16)
    {
      TypedValuesFit(value, 0, 0);
      r := WriteLongBits(value, 16, true);
    }

    /** `write(int)`: a signed 32-bit write. */
    method WriteInt(value: Int32) returns (r: Outcome<Error>)
      requires Valid()
      modifies this
      ensures Valid() && closed == old(closed)
      ensures old(closed) ==> r == Fail(StreamClosed) && sink == old(sink)
      ensures !old(closed) ==> r == Pass && sink == old(sink) + Encode(value, 32)
    {
      TypedValuesFit(0, value, 0);
      r := WriteLongBits(value, 32, true);
    }

    /** `write(long)`: a signed 64-bit write. */
    method WriteLong(value: Int64) returns (r: Outcome<Error>)
      requires Valid()
      modifies this
      ensures Valid() && closed == old(closed)
      ensures old(closed) ==> r == Fail(StreamClosed) && sink == old(sink)
      ensures !old(closed) ==> r == Pass && sink == old(sink) + Encode(value, 64)
    {
      TypedValuesFit(0, 0, value);
      r := WriteLongBits(value, 64, true);
    }

    /** `close()`: idempotent; leaves the bits and the count as they are. */
    method Close()
      requires Valid()
      modifies this
      ensures Valid() && closed
      ensures sink == old(sink) && numberOfBitsWritten == old(numberOfBitsWritten)
    {
      closed := true;
    }

    method GetNumberOfBitsWritten() returns (n: nat)
      requires Valid()
      ensures n == |sink|
    {
      n := numberOfBitsWritten;
    }
  }

  /** A closed stream accepts no bit: a write after `close()` fails and writes nothing. */
  method CloseThenWrite(s: BitOutputStream, value: Int16) returns (r: Outcome<Error>)
    requires s.Valid()
    modifies s
    ensures s.closed && s.sink == old(s.sink) && r == Fail(StreamClosed)
  {
    s.Close();
    s.Close();
    r := s.WriteShort(value);
  }

  /** The bits a successful integer write appends decode, MSB first, to the value written. */
  method WriteThenDecode(s: BitOutputStream, value: int, numberOfBits: Int32, signed: bool) returns (r: Outcome<Error>)
    requires s.Valid()
    modifies s
    ensures s.Valid()
    ensures r.Pass? ==> numberOfBits >= 0 && |s.sink| == |old(s.sink)| + numberOfBits
    ensures r.Pass? ==> s.numberOfBitsWritten == old(s.numberOfBitsWritten) + numberOfBits
    ensures r.Pass? ==> Decode(s.sink[|old(s.sink)|..], signed) == value
    ensures r.Fail? ==> s.sink == old(s.sink)
  {
    ghost var before := s.sink;
    r := s.WriteBigInteger(value, numberOfBits, signed);
    if r.Pass? {
      assert s.sink[|before|..] == Encode(value, numberOfBits);
      RoundTrip(value, numberOfBits, signed);
    }
  }
}
