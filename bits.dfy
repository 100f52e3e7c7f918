/**
 * The bit-level representation used by the bit stream codec: the bits of an
 * integer numbered as Java's BigInteger.testBit numbers them, the MSB-first
 * ("MSB 0") encoding of a value in a given width, and the matching decoders.
 */
module Bits {
  import opened JavaInts
  import opened BigIntegerUtils

  /**
   * Bit `i` of `v` in its infinite two's complement representation, as
   * `BigInteger.testBit(i)` computes it: `(v >> i) & 1`, with `>>` the
   * arithmetic shift, which is floor division by 2 applied `i` times.
   */
  function TestBit(v: int, i: nat): bool
    decreases i
  {
    if i == 0 then v % 2 == 1 else TestBit(v / 2, i - 1)
  }

  function BitValue(b: bool): int
  {
    if b then 1 else 0
  }

  /** The `n` low-order bits of `v`, most significant first (bit n-1 first, bit 0 last). */
  function Encode(v: int, n: nat): (r: seq<bool>)
    ensures |r| == n
    decreases n
  {
    if n == 0 then [] else Encode(v / 2, n - 1) + [v % 2 == 1]
  }

  /** Position `j` of the encoding holds bit `n - 1 - j`: the MSB-first order of the write loop. */
  lemma {:induction false} EncodeBitAt(v: int, n: nat, j: nat)
    requires j < n
    ensures Encode(v, n)[j] == TestBit(v, n - 1 - j)
    decreases n
  {
    if j < n - 1 {
      EncodeBitAt(v / 2, n - 1, j);
    }
  }

  /** Plain binary value of `b`, read MSB first. */
  function DecodeUnsigned(b: seq<bool>): (r: int)
    ensures 0 <= r < Pow2(|b|)
  {
    if |b| == 0 then 0 else 2 * DecodeUnsigned(b[..|b| - 1]) + BitValue(b[|b| - 1])
  }

  /** Two's complement value of `b`, read MSB first: the first bit weighs -2^(|b|-1). */
  function DecodeSigned(b: seq<bool>): (r: int)
    ensures |b| == 0 ==> r == 0
    ensures |b| > 0 ==> -Pow2(|b| - 1) <= r < Pow2(|b| - 1)
  {
    if |b| == 0 then 0
    else if |b| == 1 then -BitValue(b[0])
    else 2 * DecodeSigned(b[..|b| - 1]) + BitValue(b[|b| - 1])
  }

  /** The MSB-first decoder for either signedness; its result is always in the width's range. */
  function Decode(b: seq<bool>, signed: bool): (r: int)
    requires |b| < 0x8000_0000
    ensures InRange(r, |b|, signed)
  {
    if signed then DecodeSigned(b) else DecodeUnsigned(b)
  }

  lemma {:induction false} UnsignedRoundTrip(v: int, n: nat)
    requires 0 <= v < Pow2(n)
    ensures DecodeUnsigned(Encode(v, n)) == v
    decreases n
  {
    if n > 0 {
      assert Encode(v, n)[..n - 1] == Encode(v / 2, n - 1);
      UnsignedRoundTrip(v / 2, n - 1);
    }
  }

  lemma {:induction false} SignedRoundTrip(v: int, n: nat)
    requires n > 0 && -Pow2(n - 1) <= v < Pow2(n - 1)
    ensures DecodeSigned(Encode(v, n)) == v
    decreases n
  {
    assert Encode(v, n)[..n - 1] == Encode(v / 2, n - 1);
    if n > 1 {
      SignedRoundTrip(v / 2, n - 1);
    }
  }

  /** Decoding the encoding of any value in range gives the value back. */
  lemma RoundTrip(v: int, n: Int32, signed: bool)
    requires InRange(v, n, signed)
    ensures Decode(Encode(v, n), signed) == v
  {
    if signed {
      if n > 0 { SignedRoundTrip(v, n); }
    } else {
      UnsignedRoundTrip(v, n);
    }
  }

  lemma {:induction false} UnsignedInjective(a: seq<bool>, b: seq<bool>)
    requires |a| == |b| && DecodeUnsigned(a) == DecodeUnsigned(b)
    ensures a == b
  {
    if |a| > 0 {
      UnsignedInjective(a[..|a| - 1], b[..|b| - 1]);
      assert a == a[..|a| - 1] + [a[|a| - 1]];
      assert b == b[..|b| - 1] + [b[|b| - 1]];
    }
  }

  lemma {:induction false} SignedInjective(a: seq<bool>, b: seq<bool>)
    requires |a| == |b| && DecodeSigned(a) == DecodeSigned(b)
    ensures a == b
  {
    if |a| > 1 {
      SignedInjective(a[..|a| - 1], b[..|b| - 1]);
      assert a == a[..|a| - 1] + [a[|a| - 1]];
      assert b == b[..|b| - 1] + [b[|b| - 1]];
    } else if |a| == 1 {
      assert a == [a[0]] && b == [b[0]];
    }
  }

  /** Distinct bit patterns of one width decode to distinct values. */
  lemma DecodeInjective(a: seq<bool>, b: seq<bool>, signed: bool)
    requires |a| == |b| < 0x8000_0000
    requires Decode(a, signed) == Decode(b, signed)
    ensures a == b
  {
    if signed { SignedInjective(a, b); } else { UnsignedInjective(a, b); }
  }

  /** The other round trip: every bit pattern is the encoding of the value it decodes to. */
  lemma EncodeDecode(b: seq<bool>, signed: bool)
    requires |b| < 0x8000_0000
    ensures Encode(Decode(b, signed), |b|) == b
  {
    var v := Decode(b, signed);
    RoundTrip(v, |b|, signed);
    DecodeInjective(Encode(v, |b|), b, signed);
  }

  /** In two's complement the first (most significant) bit is the sign. */
  lemma {:induction false} SignBit(b: seq<bool>)
    requires |b| > 0
    ensures DecodeSigned(b) < 0 <==> b[0]
  {
    if |b| > 1 {
      SignBit(b[..|b| - 1]);
    }
  }

  /** The 8 bits of a Java byte, most significant first. */
  function EncodeByte(b: Int8): (r: seq<bool>)
    ensures |r| == 8
  {
    Encode(b, 8)
  }

  /** The bits of a sequence of Java bytes, each as 8 bits MSB first, in order. */
  function EncodeBytes(bytes: seq<Int8>): (r: seq<bool>)
    ensures |r| == 8 * |bytes|
  {
    if |bytes| == 0 then [] else EncodeByte(bytes[0]) + EncodeBytes(bytes[1..])
  }

  lemma {:induction false} EncodeBytesAppend(bytes: seq<Int8>, x: Int8)
    ensures EncodeBytes(bytes + [x]) == EncodeBytes(bytes) + EncodeByte(x)
  {
    if |bytes| == 0 {
      assert bytes + [x] == [x];
    } else {
      assert (bytes + [x])[1..] == bytes[1..] + [x];
      EncodeBytesAppend(bytes[1..], x);
    }
  }

  /** Extending a slice by one byte extends its bits by that byte's 8 bits. */
  lemma EncodeBytesSliceStep(bytes: seq<Int8>, lo: nat, hi: nat)
    requires lo <= hi < |bytes|
    ensures EncodeBytes(bytes[lo..hi + 1]) == EncodeBytes(bytes[lo..hi]) + EncodeByte(bytes[hi])
  {
    assert bytes[lo..hi + 1] == bytes[lo..hi] + [bytes[hi]];
    EncodeBytesAppend(bytes[lo..hi], bytes[hi]);
  }

  /** Appending bit `k` to a state holding the first `k` bits gives the first `k + 1`. */
  lemma PrefixExtend(prefix: seq<bool>, bits: seq<bool>, k: nat, before: seq<bool>, after: seq<bool>)
    requires k < |bits|
    requires before == prefix + bits[..k]
    requires after == before + [bits[k]]
    ensures after == prefix + bits[..k + 1]
  {
    assert bits[..k + 1] == bits[..k] + [bits[k]];
  }

  /** Appending one more byte's bits to a prefix of slice bits gives the bits of the longer slice. */
  lemma EncodeBytesExtend(prefix: seq<bool>, bytes: seq<Int8>, lo: nat, hi: nat, before: seq<bool>, after: seq<bool>)
    requires lo <= hi < |bytes|
    requires before == prefix + EncodeBytes(bytes[lo..hi])
    requires after == before + EncodeByte(bytes[hi])
    ensures after == prefix + EncodeBytes(bytes[lo..hi + 1])
  {
    EncodeBytesSliceStep(bytes, lo, hi);
    AppendAssociative(prefix, EncodeBytes(bytes[lo..hi]), EncodeByte(bytes[hi]));
  }

  lemma AppendAssociative(a: seq<bool>, b: seq<bool>, c: seq<bool>)
    ensures (a + b) + c == a + (b + c)
  {
  }

  /** Reads bits back as signed 8-bit groups. */
  function DecodeBytes(bits: seq<bool>): (r: seq<Int8>)
    requires |bits| % 8 == 0
    ensures 8 * |r| == |bits|
  {
    if |bits| == 0 then []
    else
      assert Pow2(7) == 128;
      [DecodeSigned(bits[..8]) as Int8] + DecodeBytes(bits[8..])
  }

  /** Bytes written 8 bits at a time are recovered exactly. */
  lemma {:induction false} BytesRoundTrip(bytes: seq<Int8>)
    ensures DecodeBytes(EncodeBytes(bytes)) == bytes
  {
    if |bytes| > 0 {
      var e := EncodeBytes(bytes);
      assert e[..8] == EncodeByte(bytes[0]);
      assert e[8..] == EncodeBytes(bytes[1..]);
      assert Pow2(7) == 128;
      SignedRoundTrip(bytes[0], 8);
      BytesRoundTrip(bytes[1..]);
    }
  }
}
