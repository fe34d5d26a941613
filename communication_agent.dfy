/** The message layer of the two-party communication agent: bit vectors
    travel packed eight to a byte, most significant bit first, and typed
    vectors travel as the bytes of their elements.  The byte channel
    itself (send/receive over a socket) is not modelled; a send produces
    the bytes put on the channel and a receive consumes the bytes the
    channel delivers. */
module Communication {
  import opened Common

  // ---------------------------------------------------------------
  // Bit packing
  // ---------------------------------------------------------------

  /** Bit j of a byte counted from the most significant end (j = 0 is
      the bit of weight 128). */
  function MsbBit(b: bv8, j: nat): bool
    requires j < 8
  {
    LsbBit(b, 7 - j)
  }

  /** Bit k of a packed byte string: bit k % 8 of byte k / 8, counted
      from the most significant end. */
  function PackedBit(bytes: seq<bv8>, k: nat): bool
    requires k < 8 * |bytes|
  {
    MsbBit(bytes[k / 8], k % 8)
  }

  /** bytes holds bits packed eight to a byte, most significant bit
      first, in ⌈|bits|/8⌉ bytes whose padding bits are 0. */
  predicate Packs(bits: seq<bool>, bytes: seq<bv8>)
  {
    && |bytes| == (|bits| + 7) / 8
    && forall k :: 0 <= k < 8 * |bytes| ==> PackedBit(bytes, k) == (k < |bits| && bits[k])
  }

  /** One step of the accumulator: bit 0 is the new bit and bit m + 1 is
      the old bit m. */
  lemma ShiftInBit(y: bv8, x: bool, m: nat)
    requires m < 8
    ensures LsbBit((y << 1) ^ (if x then 1 else 0), m) == (if m == 0 then x else LsbBit(y, m - 1))
  {
    if m == 0 {
    } else if m == 1 {
    } else if m == 2 {
    } else if m == 3 {
    } else if m == 4 {
    } else if m == 5 {
    } else if m == 6 {
    } else {
    }
  }

  /** One step of the unpacking loop: shifting right by one moves bit
      m + 1 down to m. */
  lemma ShiftOutBit(y: bv8, m: nat)
    requires m < 7
    ensures LsbBit(y >> 1, m) == LsbBit(y, m + 1)
  {
    if m == 0 {
    } else if m == 1 {
    } else if m == 2 {
    } else if m == 3 {
    } else if m == 4 {
    } else if m == 5 {
    } else {
    }
  }

  /** The padding shift, byte << (8 − n), for n accumulated bits. */
  lemma PadShift(y: bv8, n: nat, j: nat)
    requires n <= 8 && j < 8
    ensures MsbBit(y << (8 - n), j) == (j < n && LsbBit(y, n - 1 - j))
  {
    if n == 0 {
      assert y << (8 - n) == 0;
    } else if n == 1 {
      assert y << (8 - n) == y << 7;
    } else if n == 2 {
      assert y << (8 - n) == y << 6;
    } else if n == 3 {
      assert y << (8 - n) == y << 5;
    } else if n == 4 {
      assert y << (8 - n) == y << 4;
    } else if n == 5 {
      assert y << (8 - n) == y << 3;
    } else if n == 6 {
      assert y << (8 - n) == y << 2;
    } else if n == 7 {
      assert y << (8 - n) == y << 1;
    } else {
      assert y << (8 - n) == y;
    }
  }

  /** The low i bits of byte hold the i bits of bits before position
      end, the latest at the bottom. */
  predicate HoldsLast(byte: bv8, bits: seq<bool>, end: nat, i: nat)
    requires i <= end <= |bits| && i <= 8
  {
    forall m :: 0 <= m < i ==> LsbBit(byte, m) == bits[end - 1 - m]
  }

  /** One step of the packing loop: shifting left and bringing in
      bits[end] holds one more bit. */
  lemma PackStep(byte: bv8, bits: seq<bool>, end: nat, i: nat)
    requires i < 8 && i <= end < |bits| && HoldsLast(byte, bits, end, i)
    ensures HoldsLast((byte << 1) ^ (if bits[end] then 1 else 0), bits, end + 1, i + 1)
  {
    var next := (byte << 1) ^ (if bits[end] then 1 else 0);
    forall m | 0 <= m < i + 1
      ensures LsbBit(next, m) == bits[end - m]
    {
      ShiftInBit(byte, bits[end], m);
    }
  }

  /** Padding a byte that holds the last i bits before end moves them to
      the top, in order, with zeros below. */
  lemma PadStep(byte: bv8, bits: seq<bool>, end: nat, i: nat, j: nat)
    requires i <= end <= |bits| && i <= 8 && j < 8 && HoldsLast(byte, bits, end, i)
    ensures MsbBit(byte << (8 - i), j) == (j < i && bits[end - i + j])
  {
    PadShift(byte, i, j);
    if j < i {
      assert end - 1 - (i - 1 - j) == end - i + j;
    }
  }

  /** The byte the outer packing loop stores: the bits from start on,
      most significant bit first, then zeros. */
  lemma PadByte(byte: bv8, bits: seq<bool>, start: nat, i: nat, padded: bv8)
    requires start + i <= |bits| && i <= 8 && (i < 8 ==> start + i == |bits|)
    requires HoldsLast(byte, bits, start + i, i) && padded == byte << (8 - i)
    ensures forall j :: 0 <= j < 8 ==> MsbBit(padded, j) == (start + j < |bits| && bits[start + j])
  {
    forall j | 0 <= j < 8
      ensures MsbBit(padded, j) == (start + j < |bits| && bits[start + j])
    {
      PadStep(byte, bits, start + i, i, j);
    }
  }

  /** Appending the next packed byte keeps the packed prefix correct. */
  lemma AppendPacked(bits: seq<bool>, before: seq<bv8>, padded: bv8)
    requires forall k :: 0 <= k < 8 * |before| ==> PackedBit(before, k) == (k < |bits| && bits[k])
    requires forall j :: 0 <= j < 8 ==> MsbBit(padded, j) == (8 * |before| + j < |bits| && bits[8 * |before| + j])
    ensures forall k :: 0 <= k < 8 * |before| + 8 ==> PackedBit(before + [padded], k) == (k < |bits| && bits[k])
  {
    var after := before + [padded];
    forall k | 0 <= k < 8 * |after|
      ensures PackedBit(after, k) == (k < |bits| && bits[k])
    {
      if k < 8 * |before| {
        assert after[k / 8] == before[k / 8];
        assert PackedBit(after, k) == PackedBit(before, k);
      } else {
        assert k / 8 == |before| && after[k / 8] == padded;
        assert MsbBit(padded, k % 8) == (k < |bits| && bits[k]);
      }
    }
  }

  /** The inner loop of compressToBytes with the padding after it:
      packs up to eight bits from start on, most significant bit first,
      and returns the byte and where the next byte starts. */
  method PackByte(bits: seq<bool>, start: nat) returns (byte: bv8, bitIndex: nat)
    requires start < |bits|
    ensures bitIndex == if start + 8 <= |bits| then start + 8 else |bits|
    ensures forall j :: 0 <= j < 8 ==> MsbBit(byte, j) == (start + j < |bits| && bits[start + j])
  {
    byte := 0;
    bitIndex := start;
    var i := 0;
    while i < 8 && bitIndex < |bits|
      invariant 0 <= i <= 8 && bitIndex == start + i <= |bits|
      invariant HoldsLast(byte, bits, bitIndex, i)
    {
      PackStep(byte, bits, bitIndex, i);
      byte := byte << 1;
      byte := byte ^ (if bits[bitIndex] then 1 else 0);
      i := i + 1;
      bitIndex := bitIndex + 1;
    }
    var padded := byte << (8 - i);
    PadByte(byte, bits, start, i, padded);
    byte := padded;
  }

  /** compressToBytes: packs the bits eight to a byte, most significant
      bit first, padding the last byte with zeros on the right. */
  method CompressToBytes(bits: seq<bool>) returns (rst: seq<bv8>)
    ensures Packs(bits, rst)
  {
    var numberOfBytes := (|bits| + 7) / 8;
    var out := new bv8[numberOfBytes];
    var bitIndex := 0;
    var byteIndex := 0;
    while bitIndex < |bits|
      invariant bitIndex <= |bits| && byteIndex == (bitIndex + 7) / 8 <= numberOfBytes
      invariant bitIndex < |bits| ==> bitIndex == 8 * byteIndex
      invariant forall k :: 0 <= k < 8 * byteIndex ==> PackedBit(out[..byteIndex], k) == (k < |bits| && bits[k])
      decreases |bits| - bitIndex
    {
      var byte;
      byte, bitIndex := PackByte(bits, bitIndex);
      ghost var before := out[..byteIndex];
      out[byteIndex] := byte;
      assert out[..byteIndex + 1] == before + [byte];
      byteIndex := byteIndex + 1;
      AppendPacked(bits, before, byte);
    }
    rst := out[..];
    assert rst == out[..byteIndex];
  }

  /** byte is b shifted right by j: its low 8 − j bits are the high
      8 − j bits of b. */
  predicate ShiftedBy(byte: bv8, b: bv8, j: nat)
    requires j <= 8
  {
    forall m :: 0 <= m < 8 - j ==> LsbBit(byte, m) == LsbBit(b, m + j)
  }

  /** One step of the unpacking loop: the low bit of byte is bit j of b,
      and byte >> 1 is b shifted by j + 1. */
  lemma UnpackStep(byte: bv8, b: bv8, j: nat)
    requires j < 8 && ShiftedBy(byte, b, j)
    ensures (byte & 1 == 1) == MsbBit(b, 7 - j)
    ensures ShiftedBy(byte >> 1, b, j + 1)
  {
    assert LsbBit(byte, 0) == LsbBit(b, j);
    var next := byte >> 1;
    forall m | 0 <= m < 7 - j
      ensures LsbBit(next, m) == LsbBit(b, m + j + 1)
    {
      ShiftOutBit(byte, m);
    }
  }

  /** The inner loop of decompressToBits: writes the eight bits of b at
      out[at .. at + 8], least significant bit last. */
  method UnpackByte(out: array<bool>, at: nat, b: bv8)
    requires at + 8 <= out.Length
    modifies out
    ensures forall k :: 0 <= k < at ==> out[k] == old(out[k])
    ensures forall k :: at + 8 <= k < out.Length ==> out[k] == old(out[k])
    ensures forall j :: 0 <= j < 8 ==> out[at + j] == MsbBit(b, j)
  {
    var byte := b;
    for j := 0 to 8
      invariant ShiftedBy(byte, b, j)
      invariant forall k :: 0 <= k < at ==> out[k] == old(out[k])
      invariant forall k :: at + 8 <= k < out.Length ==> out[k] == old(out[k])
      invariant forall k :: at + 8 - j <= k < at + 8 ==> out[k] == MsbBit(b, k - at)
    {
      UnpackStep(byte, b, j);
      out[at + 7 - j] := byte & 1 == 1;
      byte := byte >> 1;
    }
  }

  /** decompressToBits: eight bits per byte, bit 8·i + 7 − j of the
      result taken from bit j (counted from the least significant end)
      of byte i. */
  method DecompressToBits(bytes: seq<bv8>) returns (bits: seq<bool>)
    ensures |bits| == 8 * |bytes|
    ensures forall k :: 0 <= k < |bits| ==> bits[k] == PackedBit(bytes, k)
  {
    var out := new bool[|bytes| * 8];
    var bitIndex := 0;
    for i := 0 to |bytes|
      invariant bitIndex == 8 * i
      invariant forall k :: 0 <= k < 8 * i ==> out[k] == PackedBit(bytes, k)
    {
      UnpackByte(out, bitIndex, bytes[i]);
      forall k | 8 * i <= k < 8 * (i + 1)
        ensures out[k] == PackedBit(bytes, k)
      {
        assert k / 8 == i && out[k] == out[bitIndex + (k - bitIndex)];
      }
      bitIndex := bitIndex + 8;
    }
    bits := out[..];
  }

  /** receiveBool: takes the ⌈size/8⌉ bytes the channel delivers,
      unpacks them and drops the padding bits. */
  method ReceiveBool(size: nat, incoming: seq<bv8>) returns (r: seq<bool>)
    requires |incoming| == (size + 7) / 8
    ensures |r| == size
    ensures forall k :: 0 <= k < size ==> r[k] == PackedBit(incoming, k)
  {
    var decompressed := DecompressToBits(incoming);
    r := decompressed[..size];
  }

  /** Bits sent with sendBool come out of receiveBool unchanged when the
      receiver asks for as many bits as were sent. */
  method SendReceiveBool(bits: seq<bool>) returns (r: seq<bool>)
    ensures r == bits
  {
    var wire := CompressToBytes(bits);
    r := ReceiveBool(|bits|, wire);
  }

  /** A byte is determined by its eight bits. */
  lemma SameBits(a: bv8, b: bv8)
    requires forall j :: 0 <= j < 8 ==> MsbBit(a, j) == MsbBit(b, j)
    ensures a == b
  {
    assert LsbBit(a, 0) == LsbBit(b, 0) by { assert MsbBit(a, 7) == MsbBit(b, 7); }
    assert LsbBit(a, 1) == LsbBit(b, 1) by { assert MsbBit(a, 6) == MsbBit(b, 6); }
    assert LsbBit(a, 2) == LsbBit(b, 2) by { assert MsbBit(a, 5) == MsbBit(b, 5); }
    assert LsbBit(a, 3) == LsbBit(b, 3) by { assert MsbBit(a, 4) == MsbBit(b, 4); }
    assert LsbBit(a, 4) == LsbBit(b, 4) by { assert MsbBit(a, 3) == MsbBit(b, 3); }
    assert LsbBit(a, 5) == LsbBit(b, 5) by { assert MsbBit(a, 2) == MsbBit(b, 2); }
    assert LsbBit(a, 6) == LsbBit(b, 6) by { assert MsbBit(a, 1) == MsbBit(b, 1); }
    assert LsbBit(a, 7) == LsbBit(b, 7) by { assert MsbBit(a, 0) == MsbBit(b, 0); }
  }

  /** The packing is unique: compressToBytes has exactly one correct
      output for each bit vector. */
  lemma PacksUnique(bits: seq<bool>, b1: seq<bv8>, b2: seq<bv8>)
    requires Packs(bits, b1) && Packs(bits, b2)
    ensures b1 == b2
  {
    forall i | 0 <= i < |b1|
      ensures b1[i] == b2[i]
    {
      forall j | 0 <= j < 8
        ensures MsbBit(b1[i], j) == MsbBit(b2[i], j)
      {
        assert PackedBit(b1, 8 * i + j) == PackedBit(b2, 8 * i + j);
      }
      SameBits(b1[i], b2[i]);
    }
  }

  // ---------------------------------------------------------------
  // Typed vectors
  // ---------------------------------------------------------------

  /** n copies of the element size w. */
  function Repeat(w: nat, n: nat): (r: seq<nat>)
    ensures |r| == n && forall i :: 0 <= i < n ==> r[i] == w
    decreases n
  {
    if n == 0 then [] else Repeat(w, n - 1) + [w]
  }

  lemma {:induction false} SumRepeat(w: nat, n: nat)
    ensures Sum(Repeat(w, n)) == w * n
    decreases n
  {
    if n > 0 {
      assert Repeat(w, n)[..n - 1] == Repeat(w, n - 1);
      SumRepeat(w, n - 1);
      assert w * n == w * (n - 1) + w;
    }
  }

  /** What sendT/receiveT carry: a vector of bool, a vector of bytes, or
      a vector of elements of some other type T, each element given by
      its sizeof(T) bytes in memory. */
  datatype Payload =
    | Bools(bits: seq<bool>)
    | Bytes(bytes: seq<bv8>)
    | Elements(size: nat, elements: seq<seq<bv8>>)

  /** The element type a receiver asks for. */
  datatype ElementType = BoolType | ByteType | OtherType(size: nat)

  function TypeOf(p: Payload): ElementType
  {
    match p
    case Bools(_) => BoolType
    case Bytes(_) => ByteType
    case Elements(w, _) => OtherType(w)
  }

  function Count(p: Payload): nat
  {
    match p
    case Bools(bits) => |bits|
    case Bytes(bytes) => |bytes|
    case Elements(_, es) => |es|
  }

  /** Every element has the size of its type. */
  predicate WellFormed(p: Payload)
  {
    p.Elements? ==> forall i :: 0 <= i < |p.elements| ==> |p.elements[i]| == p.size
  }

  /** The number of bytes a receive of n elements of type t asks the
      channel for. */
  function WireSize(t: ElementType, n: nat): nat
  {
    match t
    case BoolType => (n + 7) / 8
    case ByteType => n
    case OtherType(w) => w * n
  }

  /** sendT: bool vectors go through sendBool, byte vectors are sent as
      they are, and other vectors are sent as the bytes of their
      elements, in order. */
  method SendT(p: Payload) returns (wire: seq<bv8>)
    requires WellFormed(p)
    ensures |wire| == WireSize(TypeOf(p), Count(p))
    ensures p.Bools? ==> Packs(p.bits, wire)
    ensures p.Bytes? ==> wire == p.bytes
    ensures p.Elements? ==> wire == Concat(p.elements)
  {
    match p
    case Bools(bits) =>
      wire := CompressToBytes(bits);
    case Bytes(bytes) =>
      wire := bytes;
    case Elements(w, es) =>
      wire := Concat(es);
      assert Lengths(es) == Repeat(w, |es|);
      SumLengths(es);
      SumRepeat(w, |es|);
  }

  /** receiveT: reads the bytes of n elements of type t from the channel;
      bool goes through receiveBool, bytes come as they are, and other
      types are cut into consecutive sizeof(T)-byte elements. */
  method ReceiveT(t: ElementType, n: nat, incoming: seq<bv8>) returns (p: Payload)
    requires |incoming| == WireSize(t, n)
    ensures TypeOf(p) == t && Count(p) == n && WellFormed(p)
    ensures p.Bools? ==> forall k :: 0 <= k < n ==> p.bits[k] == PackedBit(incoming, k)
    ensures p.Bytes? ==> p.bytes == incoming
    ensures p.Elements? ==> Sum(Repeat(p.size, n)) == |incoming| && p.elements == Slices(incoming, Repeat(p.size, n))
  {
    match t
    case BoolType =>
      var bits := ReceiveBool(n, incoming);
      p := Bools(bits);
    case ByteType =>
      p := Bytes(incoming);
    case OtherType(w) =>
      SumRepeat(w, n);
      var es := Slices(incoming, Repeat(w, n));
      SlicesLengths(incoming, Repeat(w, n));
      forall i | 0 <= i < |es|
        ensures |es[i]| == w
      {
        assert Lengths(es)[i] == w;
      }
      p := Elements(w, es);
  }

  /** A vector sent with sendT comes out of receiveT unchanged when the
      receiver asks for the same type and the same number of elements. */
  method SendReceiveT(p: Payload) returns (r: Payload)
    requires WellFormed(p)
    ensures r == p
  {
    var wire := SendT(p);
    r := ReceiveT(TypeOf(p), Count(p), wire);
    match p
    case Bools(bits) =>
      assert r.bits == bits;
    case Bytes(_) =>
    case Elements(w, es) =>
      assert Lengths(es) == Repeat(w, |es|);
      SlicesConcat(es);
  }

  // ---------------------------------------------------------------
  // Traffic statistics
  // ---------------------------------------------------------------

  /** The traffic recorder: two 64-bit counters of bytes sent and
      received, wrapping as unsigned 64-bit integers do. */
  class TrafficRecorder {
    var sentData: U64
    var receivedData: U64

    constructor ()
      ensures sentData == 0 && receivedData == 0
    {
      sentData := 0;
      receivedData := 0;
    }

    method AddSentData(size: U64)
      modifies this
      ensures sentData == (old(sentData) + size) % 0x1_0000_0000_0000_0000
      ensures receivedData == old(receivedData)
    {
      sentData := (sentData + size) % 0x1_0000_0000_0000_0000;
    }

    method AddReceivedData(size: U64)
      modifies this
      ensures receivedData == (old(receivedData) + size) % 0x1_0000_0000_0000_0000
      ensures sentData == old(sentData)
    {
      receivedData := (receivedData + size) % 0x1_0000_0000_0000_0000;
    }

  }
}
