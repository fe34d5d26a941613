/** The 128-bit helpers of the engine.  A 128-bit SIMD value is modelled
    as its 128 bits, bit 0 (the least significant bit of byte 0) first;
    it holds two 64-bit lanes, bits 0..63 (lane 0) and 64..127 (lane 1),
    and sixteen bytes, byte i being bits 8·i .. 8·i + 7.  The SSE
    intrinsics the helpers use become functions on those bits, following
    their documented semantics (lane shifts by more than 63 clear the
    lane). */
module EngineUtil {
  import opened Common

  predicate IsM128(v: seq<bool>)
  {
    |v| == 128
  }

  function Zeros(n: nat): (r: seq<bool>)
    ensures |r| == n && forall i :: 0 <= i < n ==> !r[i]
  {
    seq(n, _ => false)
  }

  // ---------------------------------------------------------------
  // The intrinsics
  // ---------------------------------------------------------------

  /** _mm_slli_epi64: each 64-bit lane shifted left by k; a count above
      63 clears both lanes. */
  function SlliEpi64(v: seq<bool>, k: nat): (r: seq<bool>)
    requires IsM128(v)
    ensures IsM128(r)
    ensures forall i :: 0 <= i < 128 ==> r[i] == (k <= i % 64 && v[i - k])
  {
    if k > 63 then Zeros(128)
    else Zeros(k) + v[..64 - k] + Zeros(k) + v[64..128 - k]
  }

  /** _mm_srli_epi64: each 64-bit lane shifted right by k; a count above
      63 clears both lanes. */
  function SrliEpi64(v: seq<bool>, k: nat): (r: seq<bool>)
    requires IsM128(v)
    ensures IsM128(r)
    ensures forall i :: 0 <= i < 128 ==> r[i] == (i % 64 + k < 64 && v[i + k])
  {
    if k > 63 then Zeros(128)
    else v[k..64] + Zeros(k) + v[64 + k..] + Zeros(k)
  }

  /** _mm_slli_si128(v, 8): the whole value shifted left by eight bytes. */
  function SlliSi128By8(v: seq<bool>): (r: seq<bool>)
    requires IsM128(v)
    ensures IsM128(r)
    ensures forall i :: 0 <= i < 128 ==> r[i] == (64 <= i && v[i - 64])
  {
    Zeros(64) + v[..64]
  }

  /** _mm_or_si128. */
  function Or(a: seq<bool>, b: seq<bool>): (r: seq<bool>)
    requires IsM128(a) && IsM128(b)
    ensures IsM128(r) && forall i :: 0 <= i < 128 ==> r[i] == (a[i] || b[i])
  {
    seq(128, i requires 0 <= i < 128 => a[i] || b[i])
  }

  /** _mm_andnot_si128(a, b): the bits of b that are clear in a. */
  function AndNot(a: seq<bool>, b: seq<bool>): (r: seq<bool>)
    requires IsM128(a) && IsM128(b)
    ensures IsM128(r) && forall i :: 0 <= i < 128 ==> r[i] == (!a[i] && b[i])
  {
    seq(128, i requires 0 <= i < 128 => !a[i] && b[i])
  }

  /** _mm_set_epi64x(0, 1): the value 1. */
  function One(): (r: seq<bool>)
    ensures IsM128(r)
  {
    [true] + Zeros(127)
  }

  /** _mm_extract_epi8(v, i): byte i as an unsigned value. */
  function ExtractEpi8(v: seq<bool>, i: nat): nat
    requires IsM128(v) && i < 16
  {
    BitsToNat(v[8 * i..8 * i + 8])
  }

  /** _mm_extract_epi64(v, j): lane j as an unsigned value. */
  function ExtractEpi64(v: seq<bool>, j: nat): nat
    requires IsM128(v) && j < 2
  {
    BitsToNat(v[64 * j..64 * j + 64])
  }

  // ---------------------------------------------------------------
  // The helpers
  // ---------------------------------------------------------------

  /** getLsb: bit 0 of byte 0. */
  function GetLsb(src: seq<bool>): (r: bool)
    requires IsM128(src)
    ensures r == src[0]
  {
    ExtractEpi8(src, 0) % 2 == 1
  }

  /** The top bit of a bit string is its value divided by the weight of
      that bit. */
  lemma {:induction false} TopBit(bits: seq<bool>)
    requires |bits| >= 1
    ensures BitsToNat(bits) / Pow2(|bits| - 1) == if bits[|bits| - 1] then 1 else 0
    decreases |bits|
  {
    var n := |bits|;
    if n > 1 {
      var rest := bits[1..];
      TopBit(rest);
      BitsToNatBound(rest);
      var low := if bits[0] then 1 else 0;
      var top := BitsToNat(rest) / Pow2(n - 2);
      var rem := BitsToNat(rest) % Pow2(n - 2);
      assert BitsToNat(rest) == Pow2(n - 2) * top + rem;
      assert Pow2(n - 1) == 2 * Pow2(n - 2);
      assert BitsToNat(bits) == Pow2(n - 1) * top + (2 * rem + low);
      ModUnique(BitsToNat(bits), Pow2(n - 1), top, 2 * rem + low);
      assert rest[n - 2] == bits[n - 1];
    }
  }

  /** getMsb: bit 7 of byte 15, that is, bit 127. */
  function GetMsb(src: seq<bool>): (r: bool)
    requires IsM128(src)
    ensures r == src[127]
  {
    TopBit(src[120..128]);
    assert src[120..128][7] == src[127];
    assert Pow2(7) == 128;
    ExtractEpi8(src, 15) / 128 == 1
  }

  /** lShiftByBitsInPlace: a 128-bit left shift built from the 64-bit
      lane shifts; offsets from 64 on move lane 0 into lane 1 first. */
  function LShiftByBits(src: seq<bool>, offset: nat): (r: seq<bool>)
    requires IsM128(src)
    ensures IsM128(r)
  {
    if offset >= 64 then
      SlliEpi64(SlliSi128By8(src), offset - 64)
    else
      var v1 := SlliEpi64(src, offset);
      var v2 := SlliSi128By8(src);
      var v3 := SrliEpi64(v2, 64 - offset);
      Or(v1, v3)
  }

  /** lShiftByBitsInPlace is the 128-bit shift: bit i of the result is
      bit i − offset of the source, and zero below offset. */
  lemma LShiftIsShift(src: seq<bool>, offset: nat)
    requires IsM128(src)
    ensures forall i :: 0 <= i < 128 ==> LShiftByBits(src, offset)[i] == (i >= offset && src[i - offset])
  {
    var r := LShiftByBits(src, offset);
    if offset >= 64 {
      var w := SlliSi128By8(src);
      forall i | 0 <= i < 128
        ensures r[i] == (i >= offset && src[i - offset])
      {
        if offset - 64 <= 63 && i >= offset {
          assert r[i] == w[i - (offset - 64)];
        }
      }
    } else {
      var v1 := SlliEpi64(src, offset);
      var v3 := SrliEpi64(SlliSi128By8(src), 64 - offset);
      forall i | 0 <= i < 128
        ensures r[i] == (i >= offset && src[i - offset])
      {
        assert r[i] == (v1[i] || v3[i]);
        if i < 64 {
          assert !v3[i];
        } else if i < 64 + offset {
          assert !v1[i];
        } else {
          assert !v3[i];
        }
      }
    }
  }

  /** setLsbTo0. */
  function SetLsbTo0(src: seq<bool>): (r: seq<bool>)
    requires IsM128(src)
    ensures IsM128(r) && !r[0] && r[1..] == src[1..]
  {
    AndNot(One(), src)
  }

  /** setLsbTo1. */
  function SetLsbTo1(src: seq<bool>): (r: seq<bool>)
    requires IsM128(src)
    ensures IsM128(r) && r[0] && r[1..] == src[1..]
  {
    Or(One(), src)
  }

  /** The eight bits of a byte, least significant first. */
  function ByteBits(b: bv8): (r: seq<bool>)
    ensures |r| == 8 && forall j :: 0 <= j < 8 ==> r[j] == LsbBit(b, j)
  {
    [LsbBit(b, 0), LsbBit(b, 1), LsbBit(b, 2), LsbBit(b, 3), LsbBit(b, 4), LsbBit(b, 5), LsbBit(b, 6), LsbBit(b, 7)]
  }

  /** The first n bytes of src as bits, byte 0 lowest. */
  function BytesBits(src: seq<bv8>, n: nat): (r: seq<bool>)
    requires n <= |src|
    ensures |r| == 8 * n
    decreases n
  {
    if n == 0 then [] else BytesBits(src, n - 1) + ByteBits(src[n - 1])
  }

  lemma {:induction false} BytesBitsAt(src: seq<bv8>, n: nat, i: nat, j: nat)
    requires n <= |src| && i < n && j < 8
    ensures BytesBits(src, n)[8 * i + j] == LsbBit(src[i], j)
    decreases n
  {
    if i < n - 1 {
      BytesBitsAt(src, n - 1, i, j);
    }
  }

  /** buildM128i: byte i of the value is src[i]; the source reads
      src[0..15] unchecked, so src must hold at least sixteen bytes. */
  function BuildM128i(src: seq<bv8>): (r: seq<bool>)
    requires |src| >= 16
    ensures IsM128(r)
    ensures forall i, j :: 0 <= i < 16 && 0 <= j < 8 ==> r[8 * i + j] == LsbBit(src[i], j)
  {
    var r := BytesBits(src, 16);
    forall i, j | 0 <= i < 16 && 0 <= j < 8
      ensures r[8 * i + j] == LsbBit(src[i], j)
    {
      BytesBitsAt(src, 16, i, j);
    }
    r
  }

  /** extractLnbToVector: fills data with the data.Length low bits of
      src, least significant first; more than 128 requested bits is a
      runtime error and leaves data alone. */
  method ExtractLnbToVector(src: seq<bool>, data: array<bool>) returns (status: Result<()>)
    requires IsM128(src)
    modifies data
    ensures data.Length > 128 ==> status == Err(RuntimeError) && data[..] == old(data[..])
    ensures data.Length <= 128 ==> status == Ok(()) && data[..] == src[..data.Length]
  {
    if data.Length > 128 {
      return Err(RuntimeError);
    }
    var lower64 := ExtractEpi64(src, 0);
    var upper64 := ExtractEpi64(src, 1);
    var lowerBitsToCopy := if 64 < data.Length then 64 else data.Length;
    var upperBitsToCopy := data.Length - lowerBitsToCopy;
    for i := 0 to lowerBitsToCopy
      invariant lower64 == BitsToNat(src[i..64])
      invariant forall k :: 0 <= k < i ==> data[k] == src[k]
    {
      data[i] := lower64 % 2 == 1;
      lower64 := lower64 / 2;
      assert src[i..64][1..] == src[i + 1..64];
    }
    for i := 0 to upperBitsToCopy
      invariant upper64 == BitsToNat(src[64 + i..128])
      invariant forall k :: 0 <= k < 64 + i && k < data.Length ==> data[k] == src[k]
    {
      data[i + 64] := upper64 % 2 == 1;
      upper64 := upper64 / 2;
      assert src[64 + i..128][1..] == src[64 + i + 1..128];
    }
    return Ok(());
  }
}
