/** The uint32_t adapters of the standard library: conversion of a
    plaintext uint32_t to and from its 32 bits, least significant first,
    and the oblivious swap of two secret 32-bit integers.  A secret
    integer is modelled by its bits in the clear (one batch lane): its
    mux is IntArith.Mux and its XOR is boolean inequality. */
module PlaintextUint32 {
  import opened Common
  import IntArith

  /** widthForUint32. */
  const Width: nat := 32

  /** The 32 bits of x, bit 0 first. */
  function ToBits(x: U32): (r: seq<bool>)
    ensures |r| == Width
  {
    NatToBits(x, Width)
  }

  /** convertToBits: the bits of src written from index 0 up into 32
      false bits while src has bits left. */
  method ConvertToBits(src: U32) returns (r: seq<bool>)
    ensures r == ToBits(src)
  {
    var rst := new bool[Width](_ => false);
    var tmp := src;
    var t := 0;
    while tmp > 0
      invariant 0 <= t <= Width
      invariant tmp == src / Pow2(t)
      invariant forall j :: 0 <= j < t ==> rst[j] == Bit(src, j)
      invariant forall j :: t <= j < Width ==> !rst[j]
      decreases tmp
    {
      ShiftStep(src, t);
      rst[t] := tmp % 2 == 1;
      tmp := tmp / 2;
      t := t + 1;
    }
    BitsWritten(src, Width, t, rst[..]);
    r := rst[..];
  }

  /** While bits of src are left, the bit position is below 32, and
      one more halving drops bit t. */
  lemma ShiftStep(src: U32, t: nat)
    requires src / Pow2(t) > 0
    ensures t < Width
    ensures src / Pow2(t) / 2 == src / Pow2(t + 1)
  {
    Pow2Natives();
    if t >= Width {
      Pow2Monotone(Width, t);
      DivZero(src, Pow2(t));
    }
    DivDiv(src, Pow2(t), 2);
  }

  /** convertFromBits: more than 32 bits throw; otherwise the bits are
      shifted in from the last one down, in uint32_t arithmetic. */
  method ConvertFromBits(bits: seq<bool>) returns (r: Result<U32>)
    ensures |bits| > Width ==> r == Err(InvalidArgument)
    ensures |bits| <= Width ==> r.Ok? && r.value == BitsToNat(bits)
  {
    if |bits| > Width {
      return Err(InvalidArgument);
    }
    Pow2Natives();
    var rst: U32 := 0;
    var i := |bits|;
    while i > 0
      invariant 0 <= i <= |bits|
      invariant rst == BitsToNat(bits[i..])
    {
      BitsToNatBound(bits[i..]);
      Pow2Monotone(|bits| - i + 1, Width);
      ModUnique(2 * rst, TwoTo32, 0, 2 * rst);
      rst := (rst * 2) % TwoTo32;
      var bit := if bits[i - 1] then 1 else 0;
      ModUnique(rst + bit, TwoTo32, 0, rst + bit);
      rst := (rst + bit) % TwoTo32;
      assert bits[i - 1..][1..] == bits[i..];
      i := i - 1;
    }
    assert bits[0..] == bits;
    return Ok(rst);
  }

  /** Missing high bits count as 0: padding the input with false bits
      does not change the value read. */
  lemma {:induction false} PaddedBits(bits: seq<bool>, n: nat)
    ensures BitsToNat(bits + seq(n, _ => false)) == BitsToNat(bits)
    decreases |bits|, n
  {
    var pad := seq(n, _ => false);
    if |bits| > 0 {
      assert (bits + pad)[1..] == bits[1..] + pad;
      PaddedBits(bits[1..], n);
    } else if n > 0 {
      assert bits + pad == pad;
      assert bits + pad[1..] == pad[1..] == seq(n - 1, _ => false);
      PaddedBits(bits, n - 1);
    }
  }

  /** convertFromBits(convertToBits(x)) == x. */
  lemma FromToBits(x: U32)
    ensures BitsToNat(ToBits(x)) == x
  {
    Pow2Natives();
    NatToBitsValue(x, Width);
    ModUnique(x, TwoTo32, 0, x);
  }

  /** convertToBits(convertFromBits(bits)) == bits for 32 bits. */
  lemma ToFromBits(bits: seq<bool>)
    requires |bits| == Width
    ensures BitsToNat(bits) < TwoTo32 && ToBits(BitsToNat(bits)) == bits
  {
    Pow2Natives();
    BitsToNatBound(bits);
    BitsToNatToBits(bits);
  }

  /** obliviousSwap: the first result is src1.mux(indicator, src2); the
      second is that result XOR src1 XOR src2, bit by bit, which is the
      other input. */
  method ObliviousSwap(src1: seq<bool>, src2: seq<bool>, indicator: bool) returns (rst1: seq<bool>, rst2: seq<bool>)
    requires |src1| == Width && |src2| == Width
    ensures indicator ==> rst1 == src2 && rst2 == src1
    ensures !indicator ==> rst1 == src1 && rst2 == src2
  {
    rst1 := IntArith.Mux(src1, indicator, src2);
    var r := new bool[Width](i requires 0 <= i < Width => rst1[i]);
    for i := 0 to Width
      invariant forall j :: 0 <= j < i ==> r[j] == ((rst1[j] != src1[j]) != src2[j])
      invariant forall j :: i <= j < Width ==> r[j] == rst1[j]
    {
      r[i] := (r[i] != src1[i]) != src2[i];
    }
    rst2 := r[..];
  }
}
