/** AggregationValue of the standard library: a pair of uint32_t counters
    (conversion count and conversion value) with componentwise arithmetic
    modulo 2^32, its 64-bit encoding (count bits, then value bits, each
    least significant first), and the secret counterpart whose two fields
    are secret 32-bit unsigned integers.  A secret field is modelled by
    its 32 bits in the clear for one batch lane. */
module AggregationValues {
  import opened Common
  import IntArith
  import PlaintextUint32

  datatype AggregationValue = AggregationValue(conversionCount: U32, conversionValue: U32)

  /** countWidth and valueWidth. */
  const FieldWidth: nat := 32

  /** uint32_t arithmetic: the exact result reduced modulo 2^32. */
  function Wrap32(x: int): (r: int)
    ensures 0 <= r < TwoTo32
  {
    x % TwoTo32
  }

  /** The explicit constructor from a value: the count is value > 0. */
  function FromValue(value: U32): (r: AggregationValue)
    ensures r.conversionValue == value
    ensures r.conversionCount == 1 <==> value > 0
    ensures r.conversionCount == 0 <==> value == 0
  {
    AggregationValue(if value > 0 then 1 else 0, value)
  }

  const Zero := AggregationValue(0, 0)

  function Add(v1: AggregationValue, v2: AggregationValue): AggregationValue
  {
    AggregationValue(Wrap32(v1.conversionCount + v2.conversionCount), Wrap32(v1.conversionValue + v2.conversionValue))
  }

  function Sub(v1: AggregationValue, v2: AggregationValue): AggregationValue
  {
    AggregationValue(Wrap32(v1.conversionCount - v2.conversionCount), Wrap32(v1.conversionValue - v2.conversionValue))
  }

  function Neg(v: AggregationValue): AggregationValue
  {
    AggregationValue(Wrap32(-(v.conversionCount as int)), Wrap32(-(v.conversionValue as int)))
  }

  /** operator== compares both fields, which is equality of values. */
  function Equal(v1: AggregationValue, v2: AggregationValue): (r: bool)
    ensures r <==> v1 == v2
  {
    v1.conversionCount == v2.conversionCount && v1.conversionValue == v2.conversionValue
  }

  // ---------------------------------------------------------------
  // Arithmetic modulo 2^32
  // ---------------------------------------------------------------

  /** Reducing an operand first does not change a reduced sum. */
  lemma Wrap32Sum(x: int, y: int)
    ensures Wrap32(Wrap32(x) + y) == Wrap32(x + y)
  {
    var q := x / TwoTo32;
    assert Wrap32(x) + y + q * TwoTo32 == x + y;
    ModShift(Wrap32(x) + y, TwoTo32, q);
  }

  lemma Wrap32Id(x: U32)
    ensures Wrap32(x) == x
  {
    ModUnique(x, TwoTo32, 0, x);
  }

  /** + is commutative. */
  lemma AddCommutes(v1: AggregationValue, v2: AggregationValue)
    ensures Add(v1, v2) == Add(v2, v1)
  {
  }

  /** + is associative. */
  lemma AddAssociates(a: AggregationValue, b: AggregationValue, c: AggregationValue)
    ensures Add(Add(a, b), c) == Add(a, Add(b, c))
  {
    var left, right := Add(Add(a, b), c), Add(a, Add(b, c));
    assert left.conversionCount == right.conversionCount by {
      Associates32(a.conversionCount, b.conversionCount, c.conversionCount);
    }
    assert left.conversionValue == right.conversionValue by {
      Associates32(a.conversionValue, b.conversionValue, c.conversionValue);
    }
  }

  lemma Associates32(x: int, y: int, z: int)
    ensures Wrap32(Wrap32(x + y) + z) == Wrap32(x + Wrap32(y + z))
  {
    Wrap32Sum(x + y, z);
    Wrap32Sum(y + z, x);
    assert Wrap32(y + z) + x == x + Wrap32(y + z);
  }

  /** Zero is the neutral element. */
  lemma AddZero(v: AggregationValue)
    ensures Add(v, Zero) == v
  {
    Wrap32Id(v.conversionCount);
    Wrap32Id(v.conversionValue);
  }

  /** Subtracting and adding back gives the original value. */
  lemma SubThenAdd(v1: AggregationValue, v2: AggregationValue)
    ensures Add(Sub(v1, v2), v2) == v1
  {
    Wrap32Sum(v1.conversionCount - v2.conversionCount, v2.conversionCount);
    Wrap32Sum(v1.conversionValue - v2.conversionValue, v2.conversionValue);
    Wrap32Id(v1.conversionCount);
    Wrap32Id(v1.conversionValue);
  }

  lemma SubAsAddNeg32(x: int, y: int)
    ensures Wrap32(x - y) == Wrap32(x + Wrap32(-y))
  {
    Wrap32Sum(-y, x);
    assert x + Wrap32(-y) == Wrap32(-y) + x;
  }

  lemma NegNeg32(x: int)
    requires 0 <= x < TwoTo32
    ensures Wrap32(-Wrap32(-x)) == x
  {
    var c := Wrap32(-x);
    var q := (-x) / TwoTo32;
    assert -c == x + q * TwoTo32;
    ModUnique(-c, TwoTo32, q, x);
  }

  /** Subtraction is addition of the negation. */
  lemma SubIsAddNeg(v1: AggregationValue, v2: AggregationValue)
    ensures Sub(v1, v2) == Add(v1, Neg(v2))
  {
    var n := Neg(v2);
    assert Sub(v1, v2).conversionCount == Wrap32(v1.conversionCount - v2.conversionCount);
    assert Add(v1, n).conversionCount == Wrap32(v1.conversionCount + n.conversionCount);
    SubAsAddNeg32(v1.conversionCount, v2.conversionCount);
    assert Sub(v1, v2).conversionValue == Wrap32(v1.conversionValue - v2.conversionValue);
    assert Add(v1, n).conversionValue == Wrap32(v1.conversionValue + n.conversionValue);
    SubAsAddNeg32(v1.conversionValue, v2.conversionValue);
  }

  /** A value plus its negation is zero. */
  lemma AddNeg(v: AggregationValue)
    ensures Add(v, Neg(v)) == Zero
  {
    SubIsAddNeg(v, v);
  }

  /** Negating twice gives the original value. */
  lemma NegNeg(v: AggregationValue)
    ensures Neg(Neg(v)) == v
  {
    NegNeg32(v.conversionCount);
    NegNeg32(v.conversionValue);
  }

  /** An AggregationValue variable, for the compound assignment. */
  class AggregationValueVar {
    var conversionCount: U32
    var conversionValue: U32

    function Get(): AggregationValue
      reads this
    {
      AggregationValue(conversionCount, conversionValue)
    }

    constructor(v: AggregationValue)
      ensures Get() == v
    {
      conversionCount := v.conversionCount;
      conversionValue := v.conversionValue;
    }

    /** operator+=: each field incremented in place, which is +. */
    method PlusAssign(v2: AggregationValue)
      modifies this
      ensures Get() == Add(old(Get()), v2)
    {
      conversionCount := Wrap32(conversionCount + v2.conversionCount);
      conversionValue := Wrap32(conversionValue + v2.conversionValue);
    }
  }

  // ---------------------------------------------------------------
  // Bit encoding
  // ---------------------------------------------------------------

  /** The 64 bits of v: the count's 32 bits, then the value's. */
  function Bits(v: AggregationValue): (r: seq<bool>)
    ensures |r| == 2 * FieldWidth
  {
    PlaintextUint32.ToBits(v.conversionCount) + PlaintextUint32.ToBits(v.conversionValue)
  }

  /** The value whose encoding is `bits`. */
  function FromBits(bits: seq<bool>): AggregationValue
    requires |bits| == 2 * FieldWidth
  {
    PlaintextUint32.ToFromBits(bits[..FieldWidth]);
    PlaintextUint32.ToFromBits(bits[FieldWidth..]);
    AggregationValue(BitsToNat(bits[..FieldWidth]), BitsToNat(bits[FieldWidth..]))
  }

  /** convertToBits: the count's bits with the value's bits appended. */
  method ConvertToBits(src: AggregationValue) returns (r: seq<bool>)
    ensures r == Bits(src)
  {
    var count := PlaintextUint32.ConvertToBits(src.conversionCount);
    var value := PlaintextUint32.ConvertToBits(src.conversionValue);
    r := count + value;
  }

  /** convertFromBits: exactly 64 bits, count first; anything else throws
      invalid_argument. */
  method ConvertFromBits(bits: seq<bool>) returns (r: Result<AggregationValue>)
    ensures |bits| != 2 * FieldWidth ==> r == Err(InvalidArgument)
    ensures |bits| == 2 * FieldWidth ==> r == Ok(FromBits(bits))
  {
    if |bits| != 2 * FieldWidth {
      return Err(InvalidArgument);
    }
    var count := PlaintextUint32.ConvertFromBits(bits[..FieldWidth]);
    var value := PlaintextUint32.ConvertFromBits(bits[FieldWidth..]);
    return Ok(AggregationValue(count.value, value.value));
  }

  /** Decoding an encoding gives the value back. */
  lemma FromBitsBits(v: AggregationValue)
    ensures FromBits(Bits(v)) == v
  {
    var b := Bits(v);
    assert b[..FieldWidth] == PlaintextUint32.ToBits(v.conversionCount);
    assert b[FieldWidth..] == PlaintextUint32.ToBits(v.conversionValue);
    PlaintextUint32.FromToBits(v.conversionCount);
    PlaintextUint32.FromToBits(v.conversionValue);
  }

  /** Encoding a decoded value gives the 64 bits back. */
  lemma BitsFromBits(bits: seq<bool>)
    requires |bits| == 2 * FieldWidth
    ensures Bits(FromBits(bits)) == bits
  {
    PlaintextUint32.ToFromBits(bits[..FieldWidth]);
    PlaintextUint32.ToFromBits(bits[FieldWidth..]);
    assert bits[..FieldWidth] + bits[FieldWidth..] == bits;
  }

  // ---------------------------------------------------------------
  // Secret values
  // ---------------------------------------------------------------

  datatype SecretAggregationValue = SecretAggregationValue(conversionCount: seq<bool>, conversionValue: seq<bool>)

  predicate ValidSecret(s: SecretAggregationValue)
  {
    |s.conversionCount| == FieldWidth && |s.conversionValue| == FieldWidth
  }

  /** The plaintext a secret value stands for. */
  function Reveal(s: SecretAggregationValue): AggregationValue
    requires ValidSecret(s)
  {
    FromBits(s.conversionCount + s.conversionValue)
  }

  lemma RevealFields(s: SecretAggregationValue)
    requires ValidSecret(s)
    ensures Reveal(s).conversionCount == BitsToNat(s.conversionCount)
    ensures Reveal(s).conversionValue == BitsToNat(s.conversionValue)
  {
    var b := s.conversionCount + s.conversionValue;
    assert b[..FieldWidth] == s.conversionCount;
    assert b[FieldWidth..] == s.conversionValue;
  }

  /** operator- on secret values: 32-bit subtraction of each field,
      which reveals to the plaintext difference. */
  method SecretSub(a: SecretAggregationValue, b: SecretAggregationValue) returns (r: SecretAggregationValue)
    requires ValidSecret(a) && ValidSecret(b)
    ensures ValidSecret(r) && Reveal(r) == Sub(Reveal(a), Reveal(b))
  {
    var count := IntArith.Sub(a.conversionCount, b.conversionCount);
    var value := IntArith.Sub(a.conversionValue, b.conversionValue);
    r := SecretAggregationValue(count, value);
    Pow2Natives();
    RevealFields(a);
    RevealFields(b);
    RevealFields(r);
  }

  /** mux on secret values: each field muxed, selecting this value when
      the choice is 0 and src when it is 1. */
  function SecretMux(a: SecretAggregationValue, choice: bool, src: SecretAggregationValue): (r: SecretAggregationValue)
    requires ValidSecret(a) && ValidSecret(src)
    ensures r == if choice then src else a
  {
    SecretAggregationValue(
      IntArith.Mux(a.conversionCount, choice, src.conversionCount),
      IntArith.Mux(a.conversionValue, choice, src.conversionValue))
  }

  /** obliviousSwap: each field muxed, then the second result is the
      first XOR both inputs, field by field. */
  method ObliviousSwap(src1: SecretAggregationValue, src2: SecretAggregationValue, indicator: bool)
    returns (rst1: SecretAggregationValue, rst2: SecretAggregationValue)
    requires ValidSecret(src1) && ValidSecret(src2)
    ensures indicator ==> rst1 == src2 && rst2 == src1
    ensures !indicator ==> rst1 == src1 && rst2 == src2
  {
    var count1, count2 := PlaintextUint32.ObliviousSwap(src1.conversionCount, src2.conversionCount, indicator);
    var value1, value2 := PlaintextUint32.ObliviousSwap(src1.conversionValue, src2.conversionValue, indicator);
    rst1 := SecretAggregationValue(count1, value1);
    rst2 := SecretAggregationValue(count2, value2);
  }

  /** The count column handed to the secret constructor. */
  function Counts(src: seq<AggregationValue>): (r: seq<U32>)
    ensures |r| == |src| && forall i :: 0 <= i < |src| ==> r[i] == src[i].conversionCount
  {
    seq(|src|, i requires 0 <= i < |src| => src[i].conversionCount)
  }

  /** The value column handed to the secret constructor. */
  function Values(src: seq<AggregationValue>): (r: seq<U32>)
    ensures |r| == |src| && forall i :: 0 <= i < |src| ==> r[i] == src[i].conversionValue
  {
    seq(|src|, i requires 0 <= i < |src| => src[i].conversionValue)
  }

  /** openToParty: the opened counts and values, which must be equally
      many, paired up; a size difference is a runtime error. */
  method OpenToParty(counts: seq<U32>, values: seq<U32>) returns (r: Result<seq<AggregationValue>>)
    ensures |counts| != |values| ==> r == Err(RuntimeError)
    ensures |counts| == |values| ==> r.Ok? && Counts(r.value) == counts && Values(r.value) == values
  {
    if |counts| != |values| {
      return Err(RuntimeError);
    }
    var rst := new AggregationValue[|counts|](_ => Zero);
    for i := 0 to rst.Length
      invariant forall j :: 0 <= j < i ==> rst[j] == AggregationValue(counts[j], values[j])
    {
      rst[i] := AggregationValue(counts[i], values[i]);
    }
    return Ok(rst[..]);
  }

  /** Splitting values into the two columns loses nothing: the pairs
      opened from the columns are the original values. */
  lemma ColumnsDetermine(xs: seq<AggregationValue>, ys: seq<AggregationValue>)
    requires Counts(xs) == Counts(ys) && Values(xs) == Values(ys)
    ensures xs == ys
  {
    assert |xs| == |ys|;
    forall i | 0 <= i < |xs|
      ensures xs[i] == ys[i]
    {
      assert Counts(xs)[i] == Counts(ys)[i];
      assert Values(xs)[i] == Values(ys)[i];
    }
  }

  /** recoverBatchSharedSecrets: entries 0..31 of src are the count's
      bits and entries 32..63 the value's; fewer than 64 entries throw
      out_of_range at the first missing one. */
  method RecoverBatchSharedSecrets<T>(src: seq<T>) returns (r: Result<(seq<T>, seq<T>)>)
    ensures |src| < 2 * FieldWidth ==> r == Err(OutOfRange)
    ensures |src| >= 2 * FieldWidth ==> r == Ok((src[..FieldWidth], src[FieldWidth..2 * FieldWidth]))
  {
    var count: seq<T> := [];
    for i := 0 to FieldWidth
      invariant i <= |src| && count == src[..i]
    {
      if i >= |src| {
        return Err(OutOfRange);
      }
      count := count + [src[i]];
    }
    var value: seq<T> := [];
    for i := 0 to FieldWidth
      invariant FieldWidth + i <= |src| && value == src[FieldWidth..FieldWidth + i]
    {
      if FieldWidth + i >= |src| {
        return Err(OutOfRange);
      }
      value := value + [src[FieldWidth + i]];
    }
    return Ok((count, value));
  }
}
