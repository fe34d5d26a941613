/** Bit-level integer arithmetic of the MPC frontend
    (fbpcf/mpc_framework/frontend/Int_impl.h).  An Int of `width` bits is
    its array of Bits, least significant first; a Bit is modelled by its
    plaintext boolean, so `&` is `&&`, `^` is `!=` and `!` is `!`.  Signed
    Ints read the same bits in two's complement. */
module IntArith {
  import opened Common

  function BitValue(x: bool): (r: nat)
    ensures r <= 1 && (r == 1 <==> x)
  {
    if x then 1 else 0
  }

  /** The `^` of two Bits. */
  function Xor(x: bool, y: bool): bool
  {
    x != y
  }

  /** The number an Int's bits stand for. */
  function Value(bits: seq<bool>, isSigned: bool): int
    requires |bits| >= 1
  {
    if isSigned then BitsToSigned(bits) else BitsToNat(bits)
  }

  /** The weight of bit i when it is set. */
  function Weight(x: bool, i: nat): nat
  {
    if x then Pow2(i) else 0
  }

  lemma {:induction false} BitsToNatSnoc(s: seq<bool>, x: bool)
    ensures BitsToNat(s + [x]) == BitsToNat(s) + Weight(x, |s|)
    decreases |s|
  {
    if |s| > 0 {
      assert (s + [x])[1..] == s[1..] + [x];
      BitsToNatSnoc(s[1..], x);
    }
  }

  /** Extending a prefix by one bit adds that bit's weight. */
  lemma PrefixStep(s: seq<bool>, i: nat)
    requires i < |s|
    ensures BitsToNat(s[..i + 1]) == BitsToNat(s[..i]) + Weight(s[i], i)
  {
    assert s[..i + 1] == s[..i] + [s[i]];
    BitsToNatSnoc(s[..i], s[i]);
  }

  /** The most significant bit carries weight 2^(w-1). */
  lemma MsbSplit(bits: seq<bool>)
    requires |bits| >= 1
    ensures BitsToNat(bits) == BitsToNat(bits[..|bits| - 1]) + Weight(bits[|bits| - 1], |bits| - 1)
  {
    PrefixStep(bits, |bits| - 1);
    assert bits[..|bits|] == bits;
  }

  /** The two's-complement value is the low bits minus the weight of a set
      sign bit. */
  lemma SignedSplit(bits: seq<bool>)
    requires |bits| >= 1
    ensures BitsToSigned(bits) ==
      BitsToNat(bits[..|bits| - 1]) - Weight(bits[|bits| - 1], |bits| - 1)
  {
    MsbSplit(bits);
    BitsToNatBound(bits[..|bits| - 1]);
    assert Pow2(|bits|) == 2 * Pow2(|bits| - 1);
  }

  lemma ModShift(x: int, m: int, k: int)
    requires m > 0
    ensures (x + m * k) % m == x % m
  {
    var q, r := x / m, x % m;
    assert x + m * k == m * (q + k) + r by {
      assert m * (q + k) == m * q + m * k;
    }
    ModUnique(x + m * k, m, q + k, r);
  }

  /** Bits whose unsigned value is x mod 2^w read, signed, as x wrapped to
      w bits. */
  lemma SignedOfWrapped(r: seq<bool>, x: int)
    requires |r| >= 1 && BitsToNat(r) == x % Pow2(|r|)
    ensures BitsToSigned(r) == WrapS(x, |r|)
  {
  }

  /** Adding 0, ±m or ±2m does not change a residue mod m. */
  lemma ModShiftBy(x: int, y: int, m: int, d: int)
    requires m > 0 && x == y + d
    requires d == 0 || d == m || d == -m || d == 2 * m || d == -2 * m
    ensures x % m == y % m
  {
    if d == m {
      ModShift(y, m, 1);
    } else if d == -m {
      ModShift(y, m, -1);
    } else if d == 2 * m {
      ModShift(y, m, 2);
    } else if d == -2 * m {
      ModShift(y, m, -2);
    }
  }

  /** The signed reading lies 0 or 2^w below the unsigned one. */
  lemma SignedOffset(a: seq<bool>)
    requires |a| >= 1
    ensures BitsToNat(a) - BitsToSigned(a) == 0 || BitsToNat(a) - BitsToSigned(a) == Pow2(|a|)
  {
  }

  /** Readings that differ by 0 or p have sums and differences that agree
      modulo p. */
  lemma OffsetsCancel(sa: int, sb: int, ua: int, ub: int, p: int)
    requires p > 0
    requires ua - sa == 0 || ua - sa == p
    requires ub - sb == 0 || ub - sb == p
    ensures (sa + sb) % p == (ua + ub) % p
    ensures (sa - sb) % p == (ua - ub) % p
  {
    ModShiftBy(sa + sb, ua + ub, p, -(ua - sa) - (ub - sb));
    ModShiftBy(sa - sb, ua - ub, p, (ub - sb) - (ua - sa));
  }

  /** The signed and the unsigned readings of a sum or a difference agree
      modulo 2^w. */
  lemma SignedSumCongruent(a: seq<bool>, b: seq<bool>)
    requires |a| == |b| >= 1
    ensures (BitsToSigned(a) + BitsToSigned(b)) % Pow2(|a|) == (BitsToNat(a) + BitsToNat(b)) % Pow2(|a|)
    ensures (BitsToSigned(a) - BitsToSigned(b)) % Pow2(|a|) == (BitsToNat(a) - BitsToNat(b)) % Pow2(|a|)
  {
    SignedOffset(a);
    SignedOffset(b);
    OffsetsCancel(BitsToSigned(a), BitsToSigned(b), BitsToNat(a), BitsToNat(b), Pow2(|a|));
  }

  // ---------------------------------------------------------------- adder

  /** Number of low bits the carry loop of operator+ and operator- covers
      before the most significant bit is written. */
  function LowWidth(w: nat): nat
  {
    if w <= 1 then 1 else w - 1
  }

  /** operator+, bits 0 .. width-2: the sum bit and the new carry of each
      position, starting from a zero carry. */
  method AddLowBits(a: seq<bool>, b: seq<bool>) returns (r: seq<bool>, carry: bool)
    requires |a| == |b| >= 1
    ensures |r| == LowWidth(|a|)
    ensures BitsToNat(r) + Weight(carry, |r|) == BitsToNat(a[..|r|]) + BitsToNat(b[..|r|])
  {
    var w := |a|;
    r := [a[0] != b[0]];
    carry := a[0] && b[0];
    PrefixStep(a, 0);
    PrefixStep(b, 0);
    var i := 1;
    while i < w - 1
      invariant 1 <= i <= LowWidth(w) && |r| == i
      invariant BitsToNat(r) + Weight(carry, i) == BitsToNat(a[..i]) + BitsToNat(b[..i])
    {
      var left := carry != a[i];
      var right := carry != b[i];
      var bit := left != b[i];
      var next := (left && right) != carry;
      BitsToNatSnoc(r, bit);
      PrefixStep(a, i);
      PrefixStep(b, i);
      r := r + [bit];
      carry := next;
      i := i + 1;
    }
  }

  /** The carry-out argument: a sum written as r + k * 2^w, with r below
      2^w and k a carry or borrow, leaves r as its remainder. */
  lemma CarryOut(x: int, r: int, w: nat, k: int)
    requires 0 <= r < Pow2(w)
    requires k == 0 || k == 1 || k == -1
    requires x == r + (if k == 1 then Pow2(w) else if k == -1 then -(Pow2(w) as int) else 0)
    ensures r == x % Pow2(w)
  {
    ModUnique(x, Pow2(w), k, r);
  }

  /** One full-adder step on the most significant bit, in integers. */
  lemma FullAdderTop(sum: int, low: int, p: int, c: bool, x: bool, y: bool, result: int)
    requires sum == low + (if c then p else 0) + (if x then p else 0) + (if y then p else 0)
    requires result == low + (if Xor(Xor(c, x), y) then p else 0)
    ensures sum == result + (if (c && x) || (c && y) || (x && y) then 2 * p else 0)
  {
  }

  /** The top bit of operator+ from the low result and the carry. */
  lemma AddTop(a: seq<bool>, b: seq<bool>, low: seq<bool>, carry: bool)
    requires |a| == |b| >= 2 && |low| == |a| - 1
    requires BitsToNat(low) + Weight(carry, |low|) == BitsToNat(a[..|low|]) + BitsToNat(b[..|low|])
    ensures var r := low + [Xor(Xor(carry, a[|a| - 1]), b[|a| - 1])];
      var x, y := a[|a| - 1], b[|a| - 1];
      BitsToNat(a) + BitsToNat(b) == BitsToNat(r) + (if (carry && x) || (carry && y) || (x && y) then Pow2(|a|) else 0)
  {
    var w := |a|;
    var x, y := a[w - 1], b[w - 1];
    var top := Xor(Xor(carry, x), y);
    var sum, result := BitsToNat(a) + BitsToNat(b), BitsToNat(low + [top]);
    MsbSplit(a);
    MsbSplit(b);
    BitsToNatSnoc(low, top);
    FullAdderTop(sum, BitsToNat(low), Pow2(w - 1), carry, x, y, result);
    assert Pow2(w) == 2 * Pow2(w - 1);
  }

  /** operator+ as written: the most significant bit is always recomputed
      from the carry, which for width 1 overwrites bit 0 with a0 | b0. */
  method Add(a: seq<bool>, b: seq<bool>) returns (r: seq<bool>)
    requires |a| == |b| >= 1
    ensures |r| == |a|
    ensures |a| >= 2 ==> BitsToNat(r) == (BitsToNat(a) + BitsToNat(b)) % Pow2(|a|)
    ensures |a| >= 2 ==> BitsToSigned(r) == WrapS(BitsToSigned(a) + BitsToSigned(b), |a|)
    ensures |a| == 1 ==> r == [a[0] || b[0]]
  {
    var w := |a|;
    var low, carry := AddLowBits(a, b);
    if w == 1 {
      r := [Xor(Xor(carry, a[0]), b[0])];
    } else {
      r := low + [Xor(Xor(carry, a[w - 1]), b[w - 1])];
      AddTop(a, b, low, carry);
      var x, y := a[w - 1], b[w - 1];
      BitsToNatBound(r);
      CarryOut(BitsToNat(a) + BitsToNat(b), BitsToNat(r), w, if (carry && x) || (carry && y) || (x && y) then 1 else 0);
      SignedSumCongruent(a, b);
      SignedOfWrapped(r, BitsToSigned(a) + BitsToSigned(b));
    }
  }

  /** For width 1 the as-written adder computes 1 + 1 = 1 and the
      subtractor 0 - 1 = 0, where arithmetic mod 2 gives 0 and 1. */
  lemma WidthOneCounterexample()
    ensures BitsToNat([true]) != (BitsToNat([true]) + BitsToNat([true])) % Pow2(1)
    ensures BitsToNat([false]) != (BitsToNat([false]) - BitsToNat([true])) % Pow2(1)
  {
  }

  /** operator+ with the most significant step applied only when it is a
      separate bit: arithmetic mod 2^width for every width. */
  method AddAnyWidth(a: seq<bool>, b: seq<bool>) returns (r: seq<bool>)
    requires |a| == |b| >= 1
    ensures |r| == |a|
    ensures BitsToNat(r) == (BitsToNat(a) + BitsToNat(b)) % Pow2(|a|)
    ensures BitsToSigned(r) == WrapS(BitsToSigned(a) + BitsToSigned(b), |a|)
  {
    var w := |a|;
    var low, carry := AddLowBits(a, b);
    if w == 1 {
      r := low;
      assert a[..1] == a && b[..1] == b;
      CarryOut(BitsToNat(a) + BitsToNat(b), BitsToNat(r), 1, if carry then 1 else 0);
    } else {
      r := low + [Xor(Xor(carry, a[w - 1]), b[w - 1])];
      AddTop(a, b, low, carry);
      var x, y := a[w - 1], b[w - 1];
      BitsToNatBound(r);
      CarryOut(BitsToNat(a) + BitsToNat(b), BitsToNat(r), w, if (carry && x) || (carry && y) || (x && y) then 1 else 0);
    }
    SignedSumCongruent(a, b);
    SignedOfWrapped(r, BitsToSigned(a) + BitsToSigned(b));
  }

  // ----------------------------------------------------------- subtractor

  /** operator-, bits 0 .. width-2: the difference bit and the new borrow
      of each position, starting from a zero borrow. */
  method SubLowBits(a: seq<bool>, b: seq<bool>) returns (r: seq<bool>, borrow: bool)
    requires |a| == |b| >= 1
    ensures |r| == LowWidth(|a|)
    ensures BitsToNat(a[..|r|]) - BitsToNat(b[..|r|]) == BitsToNat(r) - Weight(borrow, |r|)
  {
    var w := |a|;
    r := [a[0] != b[0]];
    borrow := !a[0] && b[0];
    PrefixStep(a, 0);
    PrefixStep(b, 0);
    var i := 1;
    while i < w - 1
      invariant 1 <= i <= LowWidth(w) && |r| == i
      invariant BitsToNat(a[..i]) - BitsToNat(b[..i]) == BitsToNat(r) - Weight(borrow, i)
    {
      var tmp := borrow != b[i];
      var bit := a[i] != tmp;
      var next := borrow != ((a[i] != b[i]) && tmp);
      BitsToNatSnoc(r, bit);
      PrefixStep(a, i);
      PrefixStep(b, i);
      r := r + [bit];
      borrow := next;
      i := i + 1;
    }
  }

  /** One full-subtractor step on the most significant bit, in integers. */
  lemma FullSubtractorTop(diff: int, low: int, p: int, c: bool, x: bool, y: bool, result: int)
    requires diff == low - (if c then p else 0) + (if x then p else 0) - (if y then p else 0)
    requires result == low + (if Xor(Xor(c, x), y) then p else 0)
    ensures diff == result - (if (!x && (y || c)) || (y && c) then 2 * p else 0)
  {
  }

  /** The top bit of operator- from the low result and the borrow. */
  lemma SubTop(a: seq<bool>, b: seq<bool>, low: seq<bool>, borrow: bool)
    requires |a| == |b| >= 2 && |low| == |a| - 1
    requires BitsToNat(a[..|low|]) - BitsToNat(b[..|low|]) == BitsToNat(low) - Weight(borrow, |low|)
    ensures var r := low + [Xor(Xor(borrow, a[|a| - 1]), b[|a| - 1])];
      var x, y := a[|a| - 1], b[|a| - 1];
      BitsToNat(a) - BitsToNat(b) == BitsToNat(r) - (if (!x && (y || borrow)) || (y && borrow) then Pow2(|a|) else 0)
  {
    var w := |a|;
    var x, y := a[w - 1], b[w - 1];
    var top := Xor(Xor(borrow, x), y);
    var diff, result := BitsToNat(a) - BitsToNat(b), BitsToNat(low + [top]);
    MsbSplit(a);
    MsbSplit(b);
    BitsToNatSnoc(low, top);
    FullSubtractorTop(diff, BitsToNat(low), Pow2(w - 1), borrow, x, y, result);
    assert Pow2(w) == 2 * Pow2(w - 1);
  }

  /** operator- as written: for width 1 bit 0 is overwritten with
      a0 & !b0, so 0 - 1 gives 0. */
  method Sub(a: seq<bool>, b: seq<bool>) returns (r: seq<bool>)
    requires |a| == |b| >= 1
    ensures |r| == |a|
    ensures |a| >= 2 ==> BitsToNat(r) == (BitsToNat(a) - BitsToNat(b)) % Pow2(|a|)
    ensures |a| >= 2 ==> BitsToSigned(r) == WrapS(BitsToSigned(a) - BitsToSigned(b), |a|)
    ensures |a| == 1 ==> r == [a[0] && !b[0]]
  {
    var w := |a|;
    var low, borrow := SubLowBits(a, b);
    if w == 1 {
      r := [Xor(Xor(borrow, a[0]), b[0])];
    } else {
      r := low + [Xor(Xor(borrow, a[w - 1]), b[w - 1])];
      SubTop(a, b, low, borrow);
      var x, y := a[w - 1], b[w - 1];
      BitsToNatBound(r);
      CarryOut(BitsToNat(a) - BitsToNat(b), BitsToNat(r), w, if (!x && (y || borrow)) || (y && borrow) then -1 else 0);
      SignedSumCongruent(a, b);
      SignedOfWrapped(r, BitsToSigned(a) - BitsToSigned(b));
    }
  }

  /** operator- with the most significant step applied only when it is a
      separate bit: arithmetic mod 2^width for every width. */
  method SubAnyWidth(a: seq<bool>, b: seq<bool>) returns (r: seq<bool>)
    requires |a| == |b| >= 1
    ensures |r| == |a|
    ensures BitsToNat(r) == (BitsToNat(a) - BitsToNat(b)) % Pow2(|a|)
    ensures BitsToSigned(r) == WrapS(BitsToSigned(a) - BitsToSigned(b), |a|)
  {
    var w := |a|;
    var low, borrow := SubLowBits(a, b);
    if w == 1 {
      r := low;
      assert a[..1] == a && b[..1] == b;
      CarryOut(BitsToNat(a) - BitsToNat(b), BitsToNat(r), 1, if borrow then -1 else 0);
    } else {
      r := low + [Xor(Xor(borrow, a[w - 1]), b[w - 1])];
      SubTop(a, b, low, borrow);
      var x, y := a[w - 1], b[w - 1];
      BitsToNatBound(r);
      CarryOut(BitsToNat(a) - BitsToNat(b), BitsToNat(r), w, if (!x && (y || borrow)) || (y && borrow) then -1 else 0);
    }
    SignedSumCongruent(a, b);
    SignedOfWrapped(r, BitsToSigned(a) - BitsToSigned(b));
  }

  // ----------------------------------------------------------- comparison

  /** One comparator step in integers: a differing bit decides, an equal
      bit keeps the comparison of the lower bits. */
  lemma LessStep(la: int, lb: int, p: int, x: bool, y: bool, c: bool)
    requires 0 <= la < p && 0 <= lb < p && (c <==> la < lb)
    ensures Xor(Xor(c, x) && Xor(c, y), y) <==> la + (if x then p else 0) < lb + (if y then p else 0)
  {
  }

  /** The signed comparator's last step: a differing sign bit decides in
      favour of the negative operand. */
  lemma SignedLessStep(la: int, lb: int, p: int, x: bool, y: bool, c: bool)
    requires 0 <= la < p && 0 <= lb < p && (c <==> la < lb)
    ensures Xor(Xor(c, x) && Xor(c, y), x) <==> la - (if x then p else 0) < lb - (if y then p else 0)
  {
  }

  /** operator<, bits 0 .. width-2: the carry holds the comparison of the
      low bits seen so far. */
  method LowBitsLess(a: seq<bool>, b: seq<bool>) returns (carry: bool)
    requires |a| == |b| >= 1
    ensures carry <==> BitsToNat(a[..LowWidth(|a|)]) < BitsToNat(b[..LowWidth(|a|)])
  {
    var w := |a|;
    carry := !a[0] && b[0];
    PrefixStep(a, 0);
    PrefixStep(b, 0);
    var i := 1;
    while i < w - 1
      invariant 1 <= i <= LowWidth(w)
      invariant carry <==> BitsToNat(a[..i]) < BitsToNat(b[..i])
    {
      PrefixStep(a, i);
      PrefixStep(b, i);
      BitsToNatBound(a[..i]);
      BitsToNatBound(b[..i]);
      LessStep(BitsToNat(a[..i]), BitsToNat(b[..i]), Pow2(i), a[i], b[i], carry);
      carry := Xor(Xor(carry, a[i]) && Xor(carry, b[i]), b[i]);
      i := i + 1;
    }
  }

  /** The most significant step of operator< completes the comparison. */
  lemma LessTop(a: seq<bool>, b: seq<bool>, carry: bool, isSigned: bool)
    requires |a| == |b| >= 1
    requires carry <==> BitsToNat(a[..LowWidth(|a|)]) < BitsToNat(b[..LowWidth(|a|)])
    ensures var x, y := a[|a| - 1], b[|a| - 1];
      Xor(Xor(carry, x) && Xor(carry, y), if isSigned then x else y) <==> Value(a, isSigned) < Value(b, isSigned)
  {
    var w := |a|;
    var top := w - 1;
    if isSigned {
      SignedSplit(a);
      SignedSplit(b);
    }
    if w == 1 {
      assert a[..1] == a && b[..1] == b;
    } else {
      MsbSplit(a);
      MsbSplit(b);
      BitsToNatBound(a[..top]);
      BitsToNatBound(b[..top]);
      if isSigned {
        SignedLessStep(BitsToNat(a[..top]), BitsToNat(b[..top]), Pow2(top), a[top], b[top], carry);
      } else {
        LessStep(BitsToNat(a[..top]), BitsToNat(b[..top]), Pow2(top), a[top], b[top], carry);
      }
    }
  }

  /** operator<: a differing bit replaces the carry by the right operand's
      bit, and at the sign bit of a signed Int by the left operand's. */
  method LessThan(a: seq<bool>, b: seq<bool>, isSigned: bool) returns (lt: bool)
    requires |a| == |b| >= 1
    ensures lt <==> Value(a, isSigned) < Value(b, isSigned)
  {
    var carry := LowBitsLess(a, b);
    var top := |a| - 1;
    if isSigned {
      lt := Xor(Xor(carry, a[top]) && Xor(carry, b[top]), a[top]);
    } else {
      lt := Xor(Xor(carry, a[top]) && Xor(carry, b[top]), b[top]);
    }
    LessTop(a, b, carry, isSigned);
  }

  /** operator<= is !(other < this). */
  method LessOrEqual(a: seq<bool>, b: seq<bool>, isSigned: bool) returns (le: bool)
    requires |a| == |b| >= 1
    ensures le <==> Value(a, isSigned) <= Value(b, isSigned)
  {
    var gt := LessThan(b, a, isSigned);
    le := !gt;
  }

  /** operator> is other < this. */
  method GreaterThan(a: seq<bool>, b: seq<bool>, isSigned: bool) returns (gt: bool)
    requires |a| == |b| >= 1
    ensures gt <==> Value(a, isSigned) > Value(b, isSigned)
  {
    gt := LessThan(b, a, isSigned);
  }

  /** operator>= is !(this < other). */
  method GreaterOrEqual(a: seq<bool>, b: seq<bool>, isSigned: bool) returns (ge: bool)
    requires |a| == |b| >= 1
    ensures ge <==> Value(a, isSigned) >= Value(b, isSigned)
  {
    var lt := LessThan(a, b, isSigned);
    ge := !lt;
  }

  // ------------------------------------------------------------------ mux

  /** mux: bit i is a_i ^ (choice & (b_i ^ a_i)). */
  function Mux(a: seq<bool>, choice: bool, b: seq<bool>): (r: seq<bool>)
    requires |a| == |b|
    ensures r == if choice then b else a
  {
    seq(|a|, i requires 0 <= i < |a| => a[i] != (choice && (b[i] != a[i])))
  }

  // ---------------------------------------------------------- input/output

  const Int64Min: int := -0x8000_0000_0000_0000
  const Int64Max: int := 0x7fff_ffff_ffff_ffff
  const UInt64Limit: int := 0x1_0000_0000_0000_0000

  /** A plaintext input of the C++ unit type: int64 for signed Ints,
      uint64 for unsigned ones. */
  predicate IsUnitInt(v: int, isSigned: bool)
  {
    if isSigned then Int64Min <= v <= Int64Max else 0 <= v < UInt64Limit
  }

  /** processSingleInput: `v >> (width - 1)` is a floor division by
      2^(width-1); a too large or too small value throws, a negative
      signed value is moved up by kMask + 1 = 2^width. */
  function ProcessSingleInput(v: int, isSigned: bool, width: nat): (r: Result<nat>)
    requires 1 <= width <= 64 && IsUnitInt(v, isSigned)
  {
    if isSigned then
      if v >= 0 then
        if v / Pow2(width - 1) != 0 then Err(RuntimeError) else Ok(v)
      else if v + (Pow2(width - 1) - 1) + 1 < 0 then Err(RuntimeError)
      else Ok(v + Pow2(width))
    else if v / Pow2(width - 1) > 1 then Err(RuntimeError)
    else Ok(v)
  }

  lemma DivZeroIffBelow(v: nat, m: nat)
    requires m >= 1
    ensures v / m == 0 <==> v < m
    ensures v / m > 1 <==> v >= 2 * m
  {
    if v >= 2 * m {
      assert v / m >= 2 by {
        ModUnique(v, m, v / m, v % m);
      }
    }
  }

  /** The accepted range is exactly the width-bit range, and an accepted
      value is encoded by its residue mod 2^width. */
  lemma ProcessSingleInputRange(v: int, isSigned: bool, width: nat)
    requires 1 <= width <= 64 && IsUnitInt(v, isSigned)
    ensures ProcessSingleInput(v, isSigned, width).Ok? <==>
      if isSigned then -(Pow2(width - 1) as int) <= v < Pow2(width - 1) else v < Pow2(width)
    ensures ProcessSingleInput(v, isSigned, width).Ok? ==>
      ProcessSingleInput(v, isSigned, width).value == v % Pow2(width) &&
      ProcessSingleInput(v, isSigned, width).value < Pow2(width)
  {
    assert Pow2(width) == 2 * Pow2(width - 1);
    if v >= 0 {
      DivZeroIffBelow(v, Pow2(width - 1));
      if v < Pow2(width) {
        ModUnique(v, Pow2(width), 0, v);
      }
    } else if v >= -(Pow2(width - 1) as int) {
      ModUnique(v, Pow2(width), -1, v + Pow2(width));
    }
  }

  /** convertPublicIntToBits: bit t of the processed value, for t below
      width, is `(v >> t) & 1`. */
  method ConvertIntToBits(v: nat, width: nat) returns (bits: seq<bool>)
    ensures bits == NatToBits(v, width)
  {
    bits := [];
    for t := 0 to width
      invariant |bits| == t
      invariant forall k :: 0 <= k < t ==> bits[k] == NatToBits(v, width)[k]
    {
      NatToBitsAt(v, width, t);
      bits := bits + [(v / Pow2(t)) % 2 == 1];
    }
  }

  /** Public input: processSingleInput followed by bit extraction. */
  method PublicInput(v: int, isSigned: bool, width: nat) returns (r: Result<seq<bool>>)
    requires 1 <= width <= 64 && IsUnitInt(v, isSigned)
    ensures r.Ok? <==> ProcessSingleInput(v, isSigned, width).Ok?
    ensures r.Ok? ==> |r.value| == width && Value(r.value, isSigned) == v
  {
    var processed := ProcessSingleInput(v, isSigned, width);
    if processed.Err? {
      return Err(processed.kind);
    }
    var bits := ConvertIntToBits(processed.value, width);
    InputRoundTrip(v, isSigned, width);
    return Ok(bits);
  }

  /** convertBitsToInt inverts the input encoding. */
  lemma InputRoundTrip(v: int, isSigned: bool, width: nat)
    requires 1 <= width <= 64 && IsUnitInt(v, isSigned)
    requires ProcessSingleInput(v, isSigned, width).Ok?
    ensures Value(NatToBits(ProcessSingleInput(v, isSigned, width).value, width), isSigned) == v
  {
    var u := ProcessSingleInput(v, isSigned, width).value;
    ProcessSingleInputRange(v, isSigned, width);
    NatToBitsValue(u, width);
    ModUnique(u, Pow2(width), 0, u);
    assert Pow2(width) == 2 * Pow2(width - 1);
  }

  /** convertBitsToInt (unbatched): Horner evaluation from the most
      significant bit; a signed result above kMask >> 1 = 2^(width-1) - 1
      is moved down by kMask + 1 = 2^width. */
  method ConvertBitsToInt(bits: seq<bool>, isSigned: bool) returns (v: int)
    requires |bits| >= 1
    ensures v == Value(bits, isSigned)
  {
    var w := |bits|;
    var acc: nat := 0;
    var i := w;
    while i > 0
      invariant 0 <= i <= w
      invariant acc == BitsToNat(bits[i..])
    {
      assert bits[i - 1..][1..] == bits[i..];
      acc := 2 * acc + BitValue(bits[i - 1]);
      i := i - 1;
    }
    assert bits[0..] == bits;
    v := acc;
    if isSigned {
      assert Pow2(w) == 2 * Pow2(w - 1);
      if acc > Pow2(w - 1) - 1 {
        v := acc - (Pow2(w) - 1) - 1;
      }
    }
  }

  /** addLsb: adds each bit to the matching batch entry; inconsistent
      sizes throw. */
  method AddLsb(data: seq<nat>, bits: seq<bool>) returns (r: Result<seq<nat>>)
    ensures r.Err? <==> |data| != |bits|
    ensures r.Ok? ==> (|r.value| == |data| &&
      forall i :: 0 <= i < |data| ==> r.value[i] == data[i] + BitValue(bits[i]))
  {
    if |data| != |bits| {
      return Err(RuntimeError);
    }
    var out := data;
    for i := 0 to |data|
      invariant |out| == |data|
      invariant forall k :: 0 <= k < i ==> out[k] == data[k] + BitValue(bits[k])
      invariant forall k :: i <= k < |data| ==> out[k] == data[k]
    {
      out := out[i := out[i] + BitValue(bits[i])];
    }
    return Ok(out);
  }

  /** The k-th batch entry's bits: bit i taken from the batch of bit i. */
  function Column(data: seq<seq<bool>>, k: nat): (bits: seq<bool>)
    requires forall i :: 0 <= i < |data| ==> k < |data[i]|
    ensures |bits| == |data|
  {
    seq(|data|, i requires 0 <= i < |data| => data[i][k])
  }

  predicate SameBatchSize(data: seq<seq<bool>>)
    requires |data| >= 1
  {
    forall i :: 0 <= i < |data| ==> |data[i]| == |data[|data| - 1]|
  }

  /** convertBitsToInt (batched): the most significant batch seeds the
      buffer, then each lower batch is shifted in with addLsb, which throws
      when a batch has a different size. */
  method ConvertBatchBitsToInt(data: seq<seq<bool>>, isSigned: bool) returns (r: Result<seq<int>>)
    requires |data| >= 1
    ensures r.Err? <==> !SameBatchSize(data)
    ensures r.Ok? ==> (|r.value| == |data[|data| - 1]| &&
      forall k :: 0 <= k < |r.value| ==> r.value[k] == Value(Column(data, k), isSigned))
  {
    var w := |data|;
    var n := |data[w - 1]|;
    var seeded := AddLsb(seq(n, _ => 0), data[w - 1]);
    var buffer := seeded.value;
    var i := w - 1;
    while i > 0
      invariant 0 <= i <= w - 1 && |buffer| == n
      invariant forall j :: i <= j < w ==> |data[j]| == n
      invariant forall k :: 0 <= k < n ==> buffer[k] == BitsToNat(ColumnFrom(data, i, k))
    {
      var shifted := seq(n, k requires 0 <= k < n => 2 * buffer[k]);
      var added := AddLsb(shifted, data[i - 1]);
      if added.Err? {
        return Err(added.kind);
      }
      forall k | 0 <= k < n
        ensures added.value[k] == BitsToNat(ColumnFrom(data, i - 1, k))
      {
        assert ColumnFrom(data, i - 1, k)[1..] == ColumnFrom(data, i, k);
      }
      buffer := added.value;
      i := i - 1;
    }
    var values: seq<int> := [];
    for k := 0 to n
      invariant |values| == k
      invariant forall j :: 0 <= j < k ==> values[j] == Value(Column(data, j), isSigned)
    {
      assert ColumnFrom(data, 0, k) == Column(data, k);
      var v: int := buffer[k];
      if isSigned {
        assert Pow2(w) == 2 * Pow2(w - 1);
        if v > Pow2(w - 1) - 1 {
          v := v - (Pow2(w) - 1) - 1;
        }
      }
      values := values + [v];
    }
    return Ok(values);
  }

  /** Bits start .. |data|-1 of the k-th batch entry. */
  function ColumnFrom(data: seq<seq<bool>>, start: nat, k: nat): (bits: seq<bool>)
    requires start <= |data|
    requires forall i :: start <= i < |data| ==> k < |data[i]|
    ensures |bits| == |data| - start
  {
    seq(|data| - start, i requires 0 <= i < |data| - start => data[start + i][k])
  }
}
