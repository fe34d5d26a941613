/** The plaintext integer Intp<isSigned, width> of the standard library:
    a value of `width` bits (1 to 64) stored in the smallest native C++
    integer type that holds it, with addition, subtraction and negation
    meant to wrap modulo 2^width, and conversion to and from bits.

    Values are modelled as `int`.  A C++ conversion into the native type
    is `ToNative`: reduction modulo the native size into its signed or
    unsigned range.  The arithmetic the source does in a promoted or a
    native type reaches `round` as that reduction of the exact result,
    and a signed overflow inside `round` is taken to wrap as the hardware
    does.  `Wrap` is the reference: x read as a width-bit integer. */
module PlaintextInt {
  import opened Common

  /** The template parameters: signedness and width in bits. */
  datatype IntpKind = IntpKind(signed: bool, width: nat)

  /** kMax shifts by 64 - width, so the width is between 1 and 64. */
  predicate ValidKind(k: IntpKind)
  {
    1 <= k.width <= 64
  }

  /** 2 to the number of bits of the native type, which is the smallest of
      8, 16, 32 and 64 bits that holds the width. */
  function NativeSize(width: nat): nat
  {
    if width <= 8 then 0x100
    else if width <= 16 then 0x1_0000
    else if width <= 32 then 0x1_0000_0000
    else TwoTo64
  }

  /** Conversion of an integer to the native type. */
  function ToNative(k: IntpKind, x: int): int
    requires ValidKind(k)
  {
    var n := NativeSize(k.width);
    if k.signed then
      var u := x % n;
      if u < n / 2 then u else u - n
    else x % n
  }

  /** v is a value of the native type. */
  predicate IsNative(k: IntpKind, v: int)
    requires ValidKind(k)
  {
    var n := NativeSize(k.width);
    if k.signed then -(n / 2) <= v < n / 2 else 0 <= v < n
  }

  /** Conversion of an integer to uint64_t. */
  function ToUint64(x: int): int
  {
    x % TwoTo64
  }

  function KMax(k: IntpKind): int
    requires ValidKind(k)
  {
    if k.signed then Pow2(k.width - 1) - 1 else Pow2(k.width) - 1
  }

  function KMin(k: IntpKind): int
    requires ValidKind(k)
  {
    if k.signed then -(Pow2(k.width - 1) as int) else 0
  }

  /** kOffSet: 2^width converted to the native type.  That is 0 when the
      width fills the native type (the source also sets 0 at width 64),
      -2^width when a signed width is one bit short of it, and 2^width
      otherwise (lemma OffsetValue). */
  function KOffSet(k: IntpKind): int
    requires ValidKind(k)
  {
    var p, n := Pow2(k.width), NativeSize(k.width);
    if p == n then 0
    else if k.signed && 2 * p == n then -(p as int)
    else p
  }

  predicate InRange(k: IntpKind, v: int)
    requires ValidKind(k)
  {
    KMin(k) <= v <= KMax(k)
  }

  /** x read as a width-bit integer, signed or unsigned. */
  function Wrap(k: IntpKind, x: int): (r: int)
    requires ValidKind(k)
    ensures InRange(k, r)
  {
    if k.signed then WrapS(x, k.width) else WrapU(x, k.width)
  }

  // ---------------------------------------------------------------
  // The class
  // ---------------------------------------------------------------

  /** validateValue, run by the constructor from a native value. */
  function Validate(k: IntpKind, v: int): (r: Result<int>)
    requires ValidKind(k)
    ensures r.Ok? <==> InRange(k, v)
    ensures r.Ok? ==> r.value == v
    ensures r.Err? ==> r.kind == RuntimeError
  {
    if v > KMax(k) then Err(RuntimeError)
    else if v < KMin(k) then Err(RuntimeError)
    else Ok(v)
  }

  /** round: a native value above kMax, or below kMin when signed, moved
      by kOffSet in native arithmetic. */
  function Round(k: IntpKind, v: int): int
    requires ValidKind(k)
  {
    if v > KMax(k) then ToNative(k, v - KOffSet(k))
    else if k.signed && v < KMin(k) then ToNative(k, v + KOffSet(k))
    else v
  }

  /** The signed widths at which the source guards against overflow. */
  predicate Guarded(k: IntpKind)
  {
    k.signed && k.width in {8, 16, 32, 64}
  }

  /** operator+: add, then the constructor's validation; operands of the
      same sign at a guarded width are added as uint64_t. */
  function Add(k: IntpKind, a: int, b: int): Result<int>
    requires ValidKind(k) && InRange(k, a) && InRange(k, b)
  {
    var sum := if Guarded(k) && (a < 0) == (b < 0) then ToUint64(a + b) else a + b;
    Validate(k, Round(k, ToNative(k, sum)))
  }

  /** operator- (binary): subtract, then the constructor's validation;
      operands of different signs at a guarded width are subtracted as
      uint64_t. */
  function Sub(k: IntpKind, a: int, b: int): Result<int>
    requires ValidKind(k) && InRange(k, a) && InRange(k, b)
  {
    var diff := if Guarded(k) && (a < 0) != (b < 0) then ToUint64(a - b) else a - b;
    Validate(k, Round(k, ToNative(k, diff)))
  }

  /** operator- (unary): kMin is its own negation when signed; unsigned
      values give kOffSet - v, which is not passed through round. */
  function Negate(k: IntpKind, a: int): Result<int>
    requires ValidKind(k) && InRange(k, a)
  {
    if k.signed then
      if a == KMin(k) then Validate(k, a) else Validate(k, ToNative(k, -a))
    else
      Validate(k, ToNative(k, KOffSet(k) - a))
  }

  /** Unsigned subtraction as a + (kOffSet - b), so that the value given
      to round never borrows. */
  function SubFixed(k: IntpKind, a: int, b: int): Result<int>
    requires ValidKind(k) && InRange(k, a) && InRange(k, b)
  {
    if k.signed then Sub(k, a, b)
    else Validate(k, Round(k, ToNative(k, a + (KOffSet(k) - b))))
  }

  /** Unsigned negation with kOffSet - v passed through round. */
  function NegateFixed(k: IntpKind, a: int): Result<int>
    requires ValidKind(k) && InRange(k, a)
  {
    if k.signed then Negate(k, a)
    else Validate(k, Round(k, ToNative(k, KOffSet(k) - a)))
  }

  // ---------------------------------------------------------------
  // Sizes
  // ---------------------------------------------------------------

  /** The native size as a power of two. */
  lemma NativeSizePow(w: nat) returns (nb: nat)
    requires 1 <= w <= 64
    ensures w <= nb <= 64 && NativeSize(w) == Pow2(nb)
    ensures w + 1 < nb || w + 1 == nb || w == nb
    ensures w == nb <==> w in {8, 16, 32, 64}
  {
    nb := if w <= 8 then 8 else if w <= 16 then 16 else if w <= 32 then 32 else 64;
    Pow2Natives();
  }

  /** The native size divides 2^64. */
  lemma NativeDivides64(w: nat) returns (r: int)
    ensures TwoTo64 == NativeSize(w) * r
  {
    r := if w <= 8 then 0x100_0000_0000_0000
      else if w <= 16 then 0x1_0000_0000_0000
      else if w <= 32 then 0x1_0000_0000
      else 1;
  }

  /** How 2^width sits in the native size: equal to it, half of it, or at
      most a quarter of it. */
  lemma NativeFacts(k: IntpKind)
    requires ValidKind(k)
    ensures Pow2(k.width) == 2 * Pow2(k.width - 1)
    ensures var p, n := Pow2(k.width), NativeSize(k.width);
      && (p == n || 2 * p == n || 4 * p <= n)
      && (p == n <==> k.width in {8, 16, 32, 64})
  {
    var w := k.width;
    var p, n := Pow2(w), NativeSize(w);
    var nb := NativeSizePow(w);
    Pow2Add(w, nb - w);
    var r := Pow2(nb - w);
    assert n == p * r;
    if w + 1 < nb {
      Pow2Monotone(2, nb - w);
      MulMonotone(p, 4, r);
    } else if w + 1 == nb {
      assert r == 2;
    }
  }

  /** Guarded widths are the signed widths that fill their native type. */
  lemma GuardedIff(k: IntpKind)
    requires ValidKind(k)
    ensures Guarded(k) <==> k.signed && Pow2(k.width) == NativeSize(k.width)
  {
    NativeFacts(k);
  }

  /** The range [kMin, kMax] holds exactly 2^width values and lies inside
      the native type. */
  lemma Bounds(k: IntpKind)
    requires ValidKind(k)
    ensures KMax(k) - KMin(k) + 1 == Pow2(k.width)
    ensures IsNative(k, KMin(k)) && IsNative(k, KMax(k))
  {
    NativeFacts(k);
  }

  /** kOffSet is 2^width converted to the native type (at width 64, where
      the source writes 0 directly, that conversion is 0 as well). */
  lemma OffsetValue(k: IntpKind)
    requires ValidKind(k)
    ensures KOffSet(k) == ToNative(k, Pow2(k.width))
    ensures KOffSet(k) == Pow2(k.width) || KOffSet(k) == Pow2(k.width) - NativeSize(k.width)
  {
    NativeFacts(k);
    var p: int, n: int := Pow2(k.width), NativeSize(k.width);
    if p == n {
      ToNativeIs(k, p, 0, 1);
    } else if k.signed && 2 * p == n {
      ToNativeIs(k, p, -p, 1);
    } else {
      ToNativeIs(k, p, p, 0);
    }
  }

  // ---------------------------------------------------------------
  // Reductions
  // ---------------------------------------------------------------

  /** ToNative(k, x) == y when y is a native value that differs from x by
      a multiple of the native size. */
  lemma ToNativeIs(k: IntpKind, x: int, y: int, c: int)
    requires ValidKind(k) && IsNative(k, y)
    requires x == y + c * NativeSize(k.width)
    ensures ToNative(k, x) == y
  {
    var n := NativeSize(k.width);
    if !k.signed || y >= 0 {
      ModUnique(x, n, c, y);
    } else {
      ModUnique(x, n, c - 1, y + n);
    }
  }

  /** Wrap(k, x) == y when y is in range and differs from x by a multiple
      of 2^width. */
  lemma WrapIs(k: IntpKind, x: int, y: int, c: int)
    requires ValidKind(k) && InRange(k, y)
    requires x == y + c * Pow2(k.width)
    ensures Wrap(k, x) == y
  {
    if k.signed {
      WrapSIs(x, k.width, y, c);
    } else {
      WrapUIs(x, k.width, y, c);
    }
  }

  /** The multiple of the native size that ToNative removes. */
  lemma NativeQuotient(k: IntpKind, x: int) returns (c: int)
    requires ValidKind(k)
    ensures IsNative(k, ToNative(k, x))
    ensures x == ToNative(k, x) + c * NativeSize(k.width)
  {
    var n := NativeSize(k.width);
    c := x / n;
    if k.signed && x % n >= n / 2 {
      c := c + 1;
    }
  }

  /** A uint64_t intermediate converts to the same native value as the
      exact result. */
  lemma NativeOfUint64(k: IntpKind, x: int)
    requires ValidKind(k)
    ensures ToNative(k, ToUint64(x)) == ToNative(k, x)
  {
    var n := NativeSize(k.width);
    var r := NativeDivides64(k.width);
    var c := NativeQuotient(k, x);
    var q := x / TwoTo64;
    assert ToUint64(x) == x - TwoTo64 * q;
    assert TwoTo64 * q == n * (r * q);
    ToNativeIs(k, ToUint64(x), ToNative(k, x), c - r * q);
  }

  /** round brings every native value within 2^width of [kMin, kMax]
      back into range, onto the value it has as a width-bit integer. */
  lemma RoundWraps(k: IntpKind, v: int)
    requires ValidKind(k) && IsNative(k, v)
    requires KMin(k) - Pow2(k.width) <= v <= KMax(k) + Pow2(k.width)
    ensures Round(k, v) == Wrap(k, v)
  {
    if v > KMax(k) {
      RoundAbove(k, v);
    } else if k.signed && v < KMin(k) {
      RoundBelow(k, v);
    } else {
      WrapIs(k, v, v, 0);
    }
  }

  /** The offset is 2^width up to a multiple of the native size. */
  lemma OffsetCases(k: IntpKind)
    requires ValidKind(k)
    ensures KOffSet(k) == Pow2(k.width) || KOffSet(k) == Pow2(k.width) - NativeSize(k.width)
  {
  }

  lemma RoundAbove(k: IntpKind, v: int)
    requires ValidKind(k) && IsNative(k, v)
    requires KMax(k) < v <= KMax(k) + Pow2(k.width)
    ensures Round(k, v) == Wrap(k, v)
  {
    NativeFacts(k);
    var p: int, n: int := Pow2(k.width), NativeSize(k.width);
    OffsetCases(k);
    if KOffSet(k) == p {
      ToNativeIs(k, v - KOffSet(k), v - p, 0);
    } else {
      ToNativeIs(k, v - KOffSet(k), v - p, 1);
    }
    WrapIs(k, v, v - p, 1);
  }

  lemma RoundBelow(k: IntpKind, v: int)
    requires ValidKind(k) && IsNative(k, v) && k.signed
    requires KMin(k) - Pow2(k.width) <= v < KMin(k)
    ensures Round(k, v) == Wrap(k, v)
  {
    NativeFacts(k);
    var p: int, n: int := Pow2(k.width), NativeSize(k.width);
    OffsetCases(k);
    if KOffSet(k) == p {
      ToNativeIs(k, v + KOffSet(k), v + p, 0);
    } else {
      ToNativeIs(k, v + KOffSet(k), v + p, -1);
    }
    WrapIs(k, v, v + p, -1);
  }

  /** round of the native conversion of an exact result near the range
      is that result read as a width-bit integer. */
  lemma RoundOfNative(k: IntpKind, x: int)
    requires ValidKind(k)
    requires KMin(k) - Pow2(k.width) <= x <= KMax(k) + Pow2(k.width)
    requires Pow2(k.width) == NativeSize(k.width) || IsNative(k, x)
    ensures Round(k, ToNative(k, x)) == Wrap(k, x)
  {
    NativeFacts(k);
    if IsNative(k, x) {
      ToNativeIs(k, x, x, 0);
      RoundWraps(k, x);
    } else {
      var c := NativeQuotient(k, x);
      var y := ToNative(k, x);
      WrapIs(k, x, y, c);
    }
  }

  // ---------------------------------------------------------------
  // Arithmetic modulo 2^width
  // ---------------------------------------------------------------

  /** + is addition modulo 2^width, at every width. */
  lemma AddWraps(k: IntpKind, a: int, b: int)
    requires ValidKind(k) && InRange(k, a) && InRange(k, b)
    ensures Add(k, a, b) == Ok(Wrap(k, a + b))
  {
    NativeFacts(k);
    NativeOfUint64(k, a + b);
    RoundOfNative(k, a + b);
  }

  /** Subtraction that cannot reach the borrow: the exact difference,
      converted to the native type, is within reach of round. */
  lemma SubWrapsPlain(k: IntpKind, a: int, b: int)
    requires ValidKind(k) && InRange(k, a) && InRange(k, b)
    requires k.signed || a >= b || Pow2(k.width) == NativeSize(k.width)
    ensures Sub(k, a, b) == Ok(Wrap(k, a - b))
  {
    NativeFacts(k);
    NativeOfUint64(k, a - b);
    RoundOfNative(k, a - b);
  }

  /** An unsigned subtraction that borrows below the native size. */
  lemma SubBorrow(k: IntpKind, a: int, b: int)
    requires ValidKind(k) && InRange(k, a) && InRange(k, b)
    requires !k.signed && a < b && Pow2(k.width) < NativeSize(k.width)
    ensures 4 * Pow2(k.width) > NativeSize(k.width) ==> Sub(k, a, b) == Ok(Wrap(k, a - b))
    ensures 4 * Pow2(k.width) <= NativeSize(k.width) ==> Sub(k, a, b) == Err(RuntimeError)
  {
    NativeFacts(k);
    var s := a - b;
    var p: int, n: int := Pow2(k.width), NativeSize(k.width);
    var v := s + n;
    ToNativeIs(k, s, v, -1);
    if 2 * p == n {
      RoundWraps(k, v);
      WrapIs(k, v, s + p, 1);
      WrapIs(k, s, s + p, -1);
    } else {
      ToNativeIs(k, v - p, v - p, 0);
    }
  }

  /** Binary - is subtraction modulo 2^width, except that an unsigned
      subtraction that borrows is a runtime error once 2^width is at most
      a quarter of the native size. */
  lemma SubWraps(k: IntpKind, a: int, b: int)
    requires ValidKind(k) && InRange(k, a) && InRange(k, b)
    ensures k.signed || a >= b || 4 * Pow2(k.width) > NativeSize(k.width) ==> Sub(k, a, b) == Ok(Wrap(k, a - b))
    ensures !k.signed && a < b && 4 * Pow2(k.width) <= NativeSize(k.width) ==> Sub(k, a, b) == Err(RuntimeError)
  {
    NativeFacts(k);
    if k.signed || a >= b || Pow2(k.width) == NativeSize(k.width) {
      SubWrapsPlain(k, a, b);
    } else {
      SubBorrow(k, a, b);
    }
  }

  /** Signed negation of kMin gives kMin back, which is -kMin modulo
      2^width. */
  lemma NegateKMin(k: IntpKind)
    requires ValidKind(k) && k.signed
    ensures Negate(k, KMin(k)) == Ok(Wrap(k, -KMin(k)))
  {
    assert Pow2(k.width) == 2 * Pow2(k.width - 1);
    WrapIs(k, -KMin(k), KMin(k), 1);
  }

  /** Signed negation of any other value is exact. */
  lemma NegateSignedInside(k: IntpKind, a: int)
    requires ValidKind(k) && InRange(k, a) && k.signed && a != KMin(k)
    ensures Negate(k, a) == Ok(Wrap(k, -a))
  {
    Bounds(k);
    ToNativeIs(k, -a, -a, 0);
    WrapIs(k, -a, -a, 0);
  }

  /** Signed negation wraps: kMin is its own negation. */
  lemma NegateSignedWraps(k: IntpKind, a: int)
    requires ValidKind(k) && InRange(k, a) && k.signed
    ensures Negate(k, a) == Ok(Wrap(k, -a))
  {
    if a == KMin(k) {
      NegateKMin(k);
    } else {
      NegateSignedInside(k, a);
    }
  }

  /** Unsigned negation: kOffSet - a, which is 2^width at a == 0 unless
      the width fills the native type. */
  lemma NegateUnsigned(k: IntpKind, a: int)
    requires ValidKind(k) && InRange(k, a) && !k.signed
    ensures a != 0 || Pow2(k.width) == NativeSize(k.width) ==> Negate(k, a) == Ok(Wrap(k, -a))
    ensures a == 0 && Pow2(k.width) < NativeSize(k.width) ==> Negate(k, a) == Err(RuntimeError)
  {
    NativeFacts(k);
    var p: int, n: int := Pow2(k.width), NativeSize(k.width);
    if a == 0 {
      if p == n {
        ToNativeIs(k, 0, 0, 0);
        WrapIs(k, 0, 0, 0);
      } else {
        ToNativeIs(k, p, p, 0);
      }
    } else if p == n {
      ToNativeIs(k, -a, n - a, -1);
      WrapIs(k, -a, p - a, -1);
    } else {
      ToNativeIs(k, p - a, p - a, 0);
      WrapIs(k, -a, p - a, -1);
    }
  }

  /** Unary - is negation modulo 2^width, except that negating an
      unsigned 0 below the native size is a runtime error. */
  lemma NegateWraps(k: IntpKind, a: int)
    requires ValidKind(k) && InRange(k, a)
    ensures k.signed || a != 0 || Pow2(k.width) == NativeSize(k.width) ==> Negate(k, a) == Ok(Wrap(k, -a))
    ensures !k.signed && a == 0 && Pow2(k.width) < NativeSize(k.width) ==> Negate(k, a) == Err(RuntimeError)
  {
    if k.signed {
      NegateSignedWraps(k, a);
    } else {
      NegateUnsigned(k, a);
    }
  }

  /** The corrected subtraction wraps at every width. */
  lemma SubFixedWraps(k: IntpKind, a: int, b: int)
    requires ValidKind(k) && InRange(k, a) && InRange(k, b)
    ensures SubFixed(k, a, b) == Ok(Wrap(k, a - b))
  {
    NativeFacts(k);
    var p: int, n: int := Pow2(k.width), NativeSize(k.width);
    if k.signed {
      SubWraps(k, a, b);
    } else if p == n {
      RoundOfNative(k, a - b);
    } else {
      var x := a + (p - b);
      RoundOfNative(k, x);
      if a >= b {
        WrapIs(k, x, a - b, 1);
        WrapIs(k, a - b, a - b, 0);
      } else {
        WrapIs(k, x, x, 0);
        WrapIs(k, a - b, x, -1);
      }
    }
  }


  /** The corrected negation wraps at every width. */
  lemma NegateFixedWraps(k: IntpKind, a: int)
    requires ValidKind(k) && InRange(k, a)
    ensures NegateFixed(k, a) == Ok(Wrap(k, -a))
  {
    NativeFacts(k);
    var p: int, n: int := Pow2(k.width), NativeSize(k.width);
    if k.signed {
      NegateWraps(k, a);
    } else if p == n {
      RoundOfNative(k, -a);
    } else {
      RoundOfNative(k, p - a);
      if a == 0 {
        WrapIs(k, p, 0, 1);
        WrapIs(k, 0, 0, 0);
      } else {
        WrapIs(k, p - a, p - a, 0);
        WrapIs(k, -a, p - a, -1);
      }
    }
  }

  /** Intp<false, 6>(3) - Intp<false, 6>(5) throws instead of giving 62. */
  lemma SubBorrowCounterexample()
    ensures Sub(IntpKind(false, 6), 3, 5) == Err(RuntimeError)
    ensures SubFixed(IntpKind(false, 6), 3, 5) == Ok(62)
  {
    var k := IntpKind(false, 6);
    assert Pow2(6) == 64;
    SubWraps(k, 3, 5);
    SubFixedWraps(k, 3, 5);
    WrapIs(k, -2, 62, -1);
  }

  /** -Intp<false, 12>(0) throws instead of giving 0. */
  lemma NegateZeroCounterexample()
    ensures Negate(IntpKind(false, 12), 0) == Err(RuntimeError)
    ensures NegateFixed(IntpKind(false, 12), 0) == Ok(0)
  {
    var k := IntpKind(false, 12);
    assert Pow2(12) == 4096;
    NegateWraps(k, 0);
    NegateFixedWraps(k, 0);
    WrapIs(k, 0, 0, 0);
  }

  // ---------------------------------------------------------------
  // Bit conversion
  // ---------------------------------------------------------------

  /** The width-bit two's-complement representation of v, bit 0 first. */
  function ToBits(k: IntpKind, v: int): (r: seq<bool>)
    requires ValidKind(k)
    ensures |r| == k.width
  {
    NatToBits(WrapU(v, k.width), k.width)
  }

  /** The loop of convertToBits: writes the bits of u from index 0 up
      into `width` false bits while u has bits left.  Reaching index
      `width` with bits left is the write past the end of the vector,
      reported as OutOfRange. */
  method FillBits(u: nat, width: nat) returns (r: Result<seq<bool>>)
    ensures r.Err? <==> u >= Pow2(width)
    ensures r.Err? ==> r.kind == OutOfRange
    ensures r.Ok? ==> r.value == NatToBits(u, width)
  {
    var rst := new bool[width](_ => false);
    var tmp := u;
    var t := 0;
    while tmp > 0
      invariant 0 <= t <= width
      invariant tmp == u / Pow2(t)
      invariant forall j :: 0 <= j < t ==> rst[j] == Bit(u, j)
      invariant forall j :: t <= j < width ==> !rst[j]
      decreases tmp
    {
      if t == width {
        DivZero(u, Pow2(width));
        return Err(OutOfRange);
      }
      FillStep(u, t);
      rst[t] := tmp % 2 == 1;
      tmp := tmp / 2;
      t := t + 1;
    }
    BitsWritten(u, width, t, rst[..]);
    return Ok(rst[..]);
  }

  /** One step of the fill loop: the low bit of u / 2^t is bit t of u,
      and halving it gives u / 2^(t+1). */
  lemma FillStep(u: nat, t: nat)
    ensures (u / Pow2(t) % 2 == 1) == Bit(u, t)
    ensures u / Pow2(t) / 2 == u / Pow2(t + 1)
  {
    DivDiv(u, Pow2(t), 2);
    assert Pow2(t + 1) == Pow2(t) * 2;
  }

  /** convertToBits as written widens the value to uint64_t before
      writing its bits, so a value whose widening does not fit in
      `width` bits writes past the end of the width-element vector. */
  predicate WritesPastEnd(k: IntpKind, v: int)
    requires ValidKind(k)
  {
    ToUint64(v) >= Pow2(k.width)
  }

  lemma Pow2Divides64(w: nat)
    requires w <= 64
    ensures Pow2(w) * Pow2(64 - w) == TwoTo64
  {
    Pow2Add(w, 64 - w);
    Pow2Natives();
  }

  method ConvertToBits(k: IntpKind, v: int) returns (r: Result<seq<bool>>)
    requires ValidKind(k) && InRange(k, v)
    ensures r.Err? <==> WritesPastEnd(k, v)
    ensures r.Ok? ==> r.value == ToBits(k, v)
  {
    r := FillBits(ToUint64(v), k.width);
    if r.Ok? {
      if v >= 0 {
        Pow2Monotone(k.width, 64);
        Pow2Natives();
        ModUnique(v, TwoTo64, 0, v);
        WrapUIs(v, k.width, v, 0);
      } else {
        WritesPastEndIff(k, v);
        Pow2Natives();
      }
    }
  }


  /** Exactly the negative values of signed widths below 64 write past
      the end. */
  lemma WritesPastEndIff(k: IntpKind, v: int)
    requires ValidKind(k) && InRange(k, v)
    ensures WritesPastEnd(k, v) <==> k.signed && k.width < 64 && v < 0
  {
    NativeFacts(k);
    Pow2Divides64(k.width);
    if v >= 0 {
      ModUnique(v, TwoTo64, 0, v);
    } else {
      ModUnique(v, TwoTo64, -1, v + TwoTo64);
      if k.width < 64 {
        Pow2Monotone(k.width, 63);
        assert Pow2(64) == 2 * Pow2(63);
      }
    }
  }

  /** convertToBits with the widened value masked to `width` bits. */
  method ConvertToBitsMasked(k: IntpKind, v: int) returns (r: seq<bool>)
    requires ValidKind(k) && InRange(k, v)
    ensures r == ToBits(k, v)
  {
    var res := FillBits(WrapU(v, k.width), k.width);
    r := res.value;
  }

  /** convertFromBits: at most `width` bits, bit 0 first, read as a
      width-bit integer. */
  method ConvertFromBits(k: IntpKind, bits: seq<bool>) returns (r: Result<int>)
    requires ValidKind(k)
    ensures |bits| > k.width ==> r == Err(InvalidArgument)
    ensures |bits| <= k.width ==> r == Ok(Wrap(k, BitsToNat(bits)))
  {
    if |bits| > k.width {
      return Err(InvalidArgument);
    }
    var rst := 0;
    var i := |bits|;
    while i > 0
      invariant 0 <= i <= |bits|
      invariant rst == BitsToNat(bits[i..])
    {
      assert bits[i - 1..][1..] == bits[i..];
      rst := 2 * rst + (if bits[i - 1] then 1 else 0);
      i := i - 1;
    }
    assert bits[0..] == bits;
    BitsToNatBound(bits);
    Pow2Monotone(|bits|, k.width);
    NativeFacts(k);
    RoundOfNative(k, rst);
    r := Validate(k, Round(k, ToNative(k, rst)));
  }

  /** Reading back the bits of a value gives the value. */
  lemma BitsRoundTrip(k: IntpKind, v: int)
    requires ValidKind(k) && InRange(k, v)
    ensures Wrap(k, BitsToNat(ToBits(k, v))) == v
  {
    var p: int := Pow2(k.width);
    assert p == 2 * Pow2(k.width - 1);
    var u := WrapU(v, k.width);
    NatToBitsValue(u, k.width);
    ModUnique(u, p, 0, u);
    if k.signed && v < 0 {
      WrapUIs(v, k.width, v + p, -1);
      WrapIs(k, u, v, 1);
    } else {
      WrapUIs(v, k.width, v, 0);
      WrapIs(k, u, v, 0);
    }
  }


  /** Writing out the value read from `width` bits gives those bits. */
  lemma BitsRoundTripBack(k: IntpKind, bits: seq<bool>)
    requires ValidKind(k) && |bits| == k.width
    ensures ToBits(k, Wrap(k, BitsToNat(bits))) == bits
  {
    var p: int := Pow2(k.width);
    assert p == 2 * Pow2(k.width - 1);
    var u := BitsToNat(bits);
    BitsToNatBound(bits);
    if k.signed && u >= Pow2(k.width - 1) {
      WrapIs(k, u, u - p, 1);
      WrapUIs(u - p, k.width, u, -1);
    } else {
      WrapIs(k, u, u, 0);
      WrapUIs(u, k.width, u, 0);
    }
    BitsToNatToBits(bits);
  }

}
