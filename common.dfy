/** Shared vocabulary of the model: the exceptions the C++ code throws,
    a Result type that carries them, and bit-vector arithmetic on
    sequences of booleans (least significant bit first). */
module Common {

  /** The exception classes the source throws. */
  datatype ErrorKind = RuntimeError | InvalidArgument | OutOfRange | LogicError

  datatype Result<T> = Ok(value: T) | Err(kind: ErrorKind) {
    predicate IsFailure() { Err? }
    function PropagateFailure<U>(): Result<U>
      requires Err?
    {
      Err(kind)
    }
    function Extract(): T
      requires Ok?
    {
      value
    }
  }

  datatype Option<T> = None | Some(value: T)

  /** The values of a C++ uint64_t. */
  type U64 = x: int | 0 <= x < 0x1_0000_0000_0000_0000

  /** The values of a C++ uint32_t. */
  type U32 = x: int | 0 <= x < 0x1_0000_0000

  function Pow2(n: nat): (r: nat)
    ensures r >= 1
    decreases n
  {
    if n == 0 then 1 else 2 * Pow2(n - 1)
  }

  lemma {:induction false} Pow2Add(a: nat, b: nat)
    ensures Pow2(a + b) == Pow2(a) * Pow2(b)
    decreases a
  {
    if a > 0 {
      Pow2Add(a - 1, b);
    }
  }

  lemma {:induction false} Pow2Monotone(a: nat, b: nat)
    requires a <= b
    ensures Pow2(a) <= Pow2(b)
    decreases b
  {
    if a < b {
      Pow2Monotone(a, b - 1);
    }
  }

  /** Unsigned value of a bit sequence, bit 0 first. */
  function BitsToNat(bits: seq<bool>): nat
    decreases |bits|
  {
    if |bits| == 0 then 0
    else (if bits[0] then 1 else 0) + 2 * BitsToNat(bits[1..])
  }

  lemma {:induction false} BitsToNatBound(bits: seq<bool>)
    ensures BitsToNat(bits) < Pow2(|bits|)
    decreases |bits|
  {
    if |bits| > 0 {
      BitsToNatBound(bits[1..]);
    }
  }

  /** The `width` low bits of `x`, bit 0 first. */
  function NatToBits(x: nat, width: nat): (bits: seq<bool>)
    ensures |bits| == width
    decreases width
  {
    if width == 0 then []
    else [x % 2 == 1] + NatToBits(x / 2, width - 1)
  }

  lemma {:induction false} NatToBitsValue(x: nat, width: nat)
    ensures BitsToNat(NatToBits(x, width)) == x % Pow2(width)
    decreases width
  {
    if width > 0 {
      var bits := NatToBits(x, width);
      assert bits[1..] == NatToBits(x / 2, width - 1);
      NatToBitsValue(x / 2, width - 1);
      ModDivStep(x, Pow2(width - 1));
    }
  }

  lemma ModDivStep(x: nat, m: nat)
    requires m >= 1
    ensures x % 2 + 2 * ((x / 2) % m) == x % (2 * m)
  {
    var q := x / 2;
    var r := x % 2;
    var q2 := q / m;
    var r2 := q % m;
    assert x == 2 * m * q2 + (2 * r2 + r);
    assert 0 <= 2 * r2 + r < 2 * m;
    ModUnique(x, 2 * m, q2, 2 * r2 + r);
  }

  lemma ModUnique(x: int, m: int, q: int, r: int)
    requires m > 0 && 0 <= r < m && x == m * q + r
    ensures x / m == q && x % m == r
  {
    var q0, r0 := x / m, x % m;
    assert x == m * q0 + r0;
    assert m * (q - q0) == r0 - r by {
      MulSub(m, q, q0);
    }
    if q > q0 {
      MulAtLeast(m, q - q0);
    } else if q < q0 {
      MulAtLeast(m, q0 - q);
      MulSub(m, q0, q);
    }
  }

  lemma MulSub(m: int, a: int, b: int)
    ensures m * (a - b) == m * a - m * b
  {
  }

  lemma MulAtLeast(m: int, k: int)
    requires m > 0 && k >= 1
    ensures m * k >= m
  {
  }

  lemma {:induction false} BitsToNatToBits(bits: seq<bool>)
    ensures NatToBits(BitsToNat(bits), |bits|) == bits
    decreases |bits|
  {
    if |bits| > 0 {
      var v := BitsToNat(bits);
      assert v % 2 == (if bits[0] then 1 else 0);
      assert v / 2 == BitsToNat(bits[1..]);
      BitsToNatToBits(bits[1..]);
    }
  }

  /** Two's-complement value of a bit sequence of width at least 1. */
  function BitsToSigned(bits: seq<bool>): (r: int)
    requires |bits| >= 1
    ensures -(Pow2(|bits| - 1) as int) <= r < Pow2(|bits| - 1)
  {
    var u := BitsToNat(bits);
    BitsToNatBound(bits);
    assert Pow2(|bits|) == 2 * Pow2(|bits| - 1);
    if u < Pow2(|bits| - 1) then u else u - Pow2(|bits|)
  }

  /** x reduced modulo 2^width into [0, 2^width). */
  function WrapU(x: int, width: nat): (r: nat)
    ensures r < Pow2(width)
  {
    x % Pow2(width)
  }

  /** x reduced modulo 2^width into the signed range [-2^(width-1), 2^(width-1)). */
  function WrapS(x: int, width: nat): (r: int)
    requires width >= 1
    ensures -(Pow2(width - 1) as int) <= r < Pow2(width - 1)
  {
    assert Pow2(width) == 2 * Pow2(width - 1);
    var u := x % Pow2(width);
    if u < Pow2(width - 1) then u else u - Pow2(width)
  }

  /** The concatenation of a sequence of sequences, in order. */
  function Concat<T>(xs: seq<seq<T>>): (r: seq<T>)
    decreases |xs|
  {
    if |xs| == 0 then [] else Concat(xs[..|xs| - 1]) + xs[|xs| - 1]
  }

  /** The total length of a sequence of sequences. */
  function TotalLength<T>(xs: seq<seq<T>>): nat
    decreases |xs|
  {
    if |xs| == 0 then 0 else TotalLength(xs[..|xs| - 1]) + |xs[|xs| - 1]|
  }

  lemma {:induction false} ConcatLength<T>(xs: seq<seq<T>>)
    ensures |Concat(xs)| == TotalLength(xs)
    decreases |xs|
  {
    if |xs| > 0 {
      ConcatLength(xs[..|xs| - 1]);
    }
  }

  /** The sum of a sequence of sizes. */
  function Sum(xs: seq<nat>): nat
    decreases |xs|
  {
    if |xs| == 0 then 0 else Sum(xs[..|xs| - 1]) + xs[|xs| - 1]
  }

  /** The lengths of a sequence of sequences. */
  function Lengths<T>(xs: seq<seq<T>>): (r: seq<nat>)
    ensures |r| == |xs| && forall i :: 0 <= i < |xs| ==> r[i] == |xs[i]|
    decreases |xs|
  {
    if |xs| == 0 then [] else Lengths(xs[..|xs| - 1]) + [|xs[|xs| - 1]|]
  }

  /** Consecutive slices of v, slice i of length lengths[i], from the
      front of v. */
  function Slices<T>(v: seq<T>, lengths: seq<nat>): (r: seq<seq<T>>)
    requires Sum(lengths) <= |v|
    ensures |r| == |lengths|
    decreases |lengths|
  {
    if |lengths| == 0 then []
    else
      var n := |lengths| - 1;
      Slices(v, lengths[..n]) + [v[Sum(lengths[..n])..Sum(lengths)]]
  }

  /** The sizes add up to the total length. */
  lemma {:induction false} SumLengths<T>(xs: seq<seq<T>>)
    ensures Sum(Lengths(xs)) == TotalLength(xs) == |Concat(xs)|
    decreases |xs|
  {
    ConcatLength(xs);
    if |xs| > 0 {
      assert Lengths(xs)[..|xs| - 1] == Lengths(xs[..|xs| - 1]);
      SumLengths(xs[..|xs| - 1]);
    }
  }

  /** Slice i has length lengths[i]. */
  lemma {:induction false} SlicesLengths<T>(v: seq<T>, lengths: seq<nat>)
    requires Sum(lengths) <= |v|
    ensures Lengths(Slices(v, lengths)) == lengths
    decreases |lengths|
  {
    if |lengths| > 0 {
      var n := |lengths| - 1;
      SlicesLengths(v, lengths[..n]);
      var s := Slices(v, lengths);
      assert s[..n] == Slices(v, lengths[..n]);
      assert |s[n]| == lengths[n];
      assert Lengths(s) == Lengths(s[..n]) + [|s[n]|];
      assert lengths == lengths[..n] + [lengths[n]];
    }
  }

  /** Slicing looks only at the first Sum(lengths) elements. */
  lemma {:induction false} SlicesPrefix<T>(v: seq<T>, w: seq<T>, lengths: seq<nat>)
    requires Sum(lengths) <= |v|
    ensures Slices(v + w, lengths) == Slices(v, lengths)
    decreases |lengths|
  {
    if |lengths| > 0 {
      var n := |lengths| - 1;
      SlicesPrefix(v, w, lengths[..n]);
      assert (v + w)[Sum(lengths[..n])..Sum(lengths)] == v[Sum(lengths[..n])..Sum(lengths)];
    }
  }

  /** Concatenating the slices gives back the prefix that was sliced. */
  lemma {:induction false} ConcatSlices<T>(v: seq<T>, lengths: seq<nat>)
    requires Sum(lengths) <= |v|
    ensures Concat(Slices(v, lengths)) == v[..Sum(lengths)]
    decreases |lengths|
  {
    if |lengths| > 0 {
      var n := |lengths| - 1;
      var s := Slices(v, lengths);
      ConcatSlices(v, lengths[..n]);
      assert s[..n] == Slices(v, lengths[..n]);
      assert v[..Sum(lengths)] == v[..Sum(lengths[..n])] + v[Sum(lengths[..n])..Sum(lengths)];
    }
  }

  /** Slicing a concatenation by the parts' lengths gives back the parts. */
  lemma {:induction false} SlicesConcat<T>(xs: seq<seq<T>>)
    ensures Sum(Lengths(xs)) <= |Concat(xs)| && Slices(Concat(xs), Lengths(xs)) == xs
    decreases |xs|
  {
    SumLengths(xs);
    if |xs| > 0 {
      var n := |xs| - 1;
      var init := xs[..n];
      SumLengths(init);
      SlicesConcat(init);
      assert Lengths(xs)[..n] == Lengths(init);
      SlicesPrefix(Concat(init), xs[n], Lengths(init));
      var c := Concat(xs);
      assert c == Concat(init) + xs[n];
      assert Sum(Lengths(xs)) == Sum(Lengths(init)) + |xs[n]|;
      assert c[Sum(Lengths(init))..Sum(Lengths(xs))] == xs[n];
      assert xs == init + [xs[n]];
    }
  }

  /** Bit m of a byte counted from the least significant end (m = 0 is
      the bit of weight 1). */
  function LsbBit(b: bv8, m: nat): bool
    requires m < 8
  {
    if m == 0 then b & 0x01 != 0
    else if m == 1 then b & 0x02 != 0
    else if m == 2 then b & 0x04 != 0
    else if m == 3 then b & 0x08 != 0
    else if m == 4 then b & 0x10 != 0
    else if m == 5 then b & 0x20 != 0
    else if m == 6 then b & 0x40 != 0
    else b & 0x80 != 0
  }

  lemma MulAdd(m: int, a: int, b: int)
    ensures m * (a + b) == m * a + m * b
  {
  }

  lemma MulMonotone(m: int, a: int, b: int)
    requires m >= 0 && a <= b
    ensures m * a <= m * b
  {
    MulSub(m, b, a);
  }

  /** Adding a multiple of m leaves the remainder modulo m unchanged. */
  lemma ModShift(x: int, m: int, c: int)
    requires m > 0
    ensures (x + c * m) % m == x % m
  {
    var q, r := x / m, x % m;
    MulAdd(m, q, c);
    ModUnique(x + c * m, m, q + c, r);
  }

  /** Dividing by a and then by b is dividing by a * b. */
  lemma DivDiv(x: int, a: int, b: int)
    requires a > 0 && b > 0
    ensures x / a / b == x / (a * b)
  {
    var q, r := x / a, x % a;
    var q2, r2 := q / b, q % b;
    MulAdd(a, b * q2, r2);
    assert a * (b * q2) == (a * b) * q2;
    assert x == (a * b) * q2 + (a * r2 + r);
    MulMonotone(a, r2, b - 1);
    MulSub(a, b, 1);
    ModUnique(x, a * b, q2, a * r2 + r);
  }

  /** Reducing modulo 2^m and then modulo 2^n, n <= m, is reducing modulo
      2^n. */
  lemma WrapUNarrow(x: int, n: nat, m: nat)
    requires n <= m
    ensures WrapU(WrapU(x, m), n) == WrapU(x, n)
  {
    Pow2Add(n, m - n);
    ModNarrow(x, Pow2(n), Pow2(m - n));
  }

  lemma ModNarrow(x: int, a: int, b: int)
    requires a > 0 && b > 0
    ensures x % (a * b) % a == x % a
  {
    var q, r := x / (a * b), x % (a * b);
    var q2, r2 := r / a, r % a;
    assert x == (a * b) * q + r;
    assert (a * b) * q == a * (b * q);
    MulAdd(a, b * q, q2);
    ModUnique(x, a, b * q + q2, r2);
  }

  /** WrapU(x, n) == y when y is in [0, 2^n) and differs from x by a
      multiple of 2^n. */
  lemma WrapUIs(x: int, n: nat, y: int, q: int)
    requires 0 <= y < Pow2(n) && x == y + q * Pow2(n)
    ensures WrapU(x, n) == y
  {
    ModUnique(x, Pow2(n), q, y);
  }

  /** WrapS(x, n) == y when y is in the signed n-bit range and differs
      from x by a multiple of 2^n. */
  lemma WrapSIs(x: int, n: nat, y: int, q: int)
    requires n >= 1 && -(Pow2(n - 1) as int) <= y < Pow2(n - 1) && x == y + q * Pow2(n)
    ensures WrapS(x, n) == y
  {
    assert Pow2(n) == 2 * Pow2(n - 1);
    if y >= 0 {
      WrapUIs(x, n, y, q);
    } else {
      WrapUIs(x, n, y + Pow2(n), q - 1);
    }
  }

  /** A slice of a slice is a slice of the original. */
  lemma SliceOfSlice<T>(s: seq<T>, a: nat, n: nat, t: nat, k: nat)
    requires a + n <= |s| && t + k <= n
    ensures s[a..a + n][t..t + k] == s[a + t..a + t + k]
  {
    var x, y := s[a..a + n][t..t + k], s[a + t..a + t + k];
    forall j | 0 <= j < k
      ensures x[j] == y[j]
    {
      assert x[j] == s[a..a + n][t + j] == s[a + t + j];
    }
  }

  /** A slice within the left operand of a concatenation. */
  lemma SliceOfConcat<T>(a: seq<T>, b: seq<T>, x: nat, n: nat)
    requires x + n <= |a|
    ensures (a + b)[x..x + n] == a[x..x + n]
  {
  }

  /** The right operand of a concatenation, sliced out of it. */
  lemma SliceRight<T>(a: seq<T>, b: seq<T>)
    ensures (a + b)[|a|..|a| + |b|] == b
  {
  }

  /** The quotient of x by m is zero exactly when x is below m. */
  lemma DivZero(x: nat, m: int)
    requires m > 0
    ensures x / m == 0 <==> x < m
  {
    if x < m {
      ModUnique(x, m, 0, x);
    }
  }

  const TwoTo32: int := 0x1_0000_0000
  const TwoTo64: int := 0x1_0000_0000_0000_0000

  /** 2 to the widths of the C++ integer types. */
  lemma Pow2Natives()
    ensures Pow2(8) == 0x100 && Pow2(16) == 0x1_0000
    ensures Pow2(32) == TwoTo32 && Pow2(64) == TwoTo64
  {
    assert Pow2(8) == 0x100;
    Pow2Add(8, 8);
    Pow2Add(16, 16);
    Pow2Add(32, 32);
  }

  /** Bit j of u. */
  function Bit(u: nat, j: nat): bool
  {
    u / Pow2(j) % 2 == 1
  }

  lemma {:induction false} NatToBitsAt(x: nat, w: nat, j: nat)
    requires j < w
    ensures NatToBits(x, w)[j] == Bit(x, j)
    decreases w
  {
    if j > 0 {
      NatToBitsAt(x / 2, w - 1, j - 1);
      DivDiv(x, 2, Pow2(j - 1));
    }
  }

  /** Once the bits of u below t are written and u has no bits from t
      on, the vector holds u in `width` bits. */
  lemma BitsWritten(u: nat, width: nat, t: nat, bits: seq<bool>)
    requires t <= width && |bits| == width && u / Pow2(t) == 0
    requires forall j :: 0 <= j < t ==> bits[j] == Bit(u, j)
    requires forall j :: t <= j < width ==> !bits[j]
    ensures u < Pow2(width) && bits == NatToBits(u, width)
  {
    DivZero(u, Pow2(t));
    Pow2Monotone(t, width);
    forall j | 0 <= j < width
      ensures bits[j] == NatToBits(u, width)[j]
    {
      NatToBitsAt(u, width, j);
      if j >= t {
        Pow2Monotone(t, j);
        DivZero(u, Pow2(j));
      }
    }
  }
}
