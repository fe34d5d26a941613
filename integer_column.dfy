/** IntegerColumn: a column of 8-, 16-, 32- or 64-bit integers, each
    written into its row's bytes little-endian at the column's offset and
    read back from the secret-shared bytes.  A value of the native C++
    type is an int in that type's range; bytes are taken from it with an
    arithmetic shift, which is Dafny's `/` by a power of 256. */
module IntegerColumns {
  import opened Common
  import opened ColumnDefinition

  /** IntegerColumn<schedulerId, isSigned, width>. */
  datatype IntegerColumn = IntegerColumn(name: string, signed: bool, width: nat)

  /** The static_assert admits the widths 8, 16, 32 and 64; the model
      needs only that the width is a positive whole number of bytes. */
  predicate ValidWidth(width: nat)
  {
    8 <= width && width % 8 == 0
  }

  /** getColumnSizeBytes: width / 8. */
  function SizeBytes(c: IntegerColumn): nat
  {
    c.width / 8
  }

  /** The signedness and width a column type stands for. */
  function TypeSigned(t: ColumnType): bool
  {
    t == Int32 || t == Int64
  }

  function TypeWidth(t: ColumnType): nat
  {
    if t == Int64 then 64 else 32
  }

  /** getColumnType: int32, int64 and uint32 columns have a type; every
      other combination throws. */
  function ColumnTypeOf(c: IntegerColumn): (r: Result<ColumnType>)
    ensures r.Ok? <==> c.width == 32 || (c.signed && c.width == 64)
    ensures r.Err? ==> r.kind == RuntimeError
    ensures r.Ok? ==> r.value in {Int32, Int64, UInt32}
    ensures r.Ok? ==> TypeSigned(r.value) == c.signed && TypeWidth(r.value) == c.width
  {
    if c.signed && c.width == 32 then Ok(Int32)
    else if c.signed && c.width == 64 then Ok(Int64)
    else if !c.signed && c.width == 32 then Ok(UInt32)
    else Err(RuntimeError)
  }

  /** The values of the column's native type. */
  predicate InNativeRange(c: IntegerColumn, v: int)
    requires c.width >= 1
  {
    if c.signed then -(Pow2(c.width - 1) as int) <= v < Pow2(c.width - 1)
    else 0 <= v < Pow2(c.width)
  }

  /** The native value whose bit pattern is u. */
  function Native(c: IntegerColumn, u: int): int
    requires c.width >= 1
  {
    if c.signed then WrapS(u, c.width) else WrapU(u, c.width)
  }

  /** The native value stored little-endian in bytes. */
  function ValueOf(c: IntegerColumn, bytes: seq<Byte>): int
    requires c.width >= 1
  {
    Native(c, FromLittleEndian(bytes))
  }

  /** 256^n. */
  function ByteWeight(n: nat): (r: nat)
    ensures r >= 1
  {
    if n == 0 then 1 else 256 * ByteWeight(n - 1)
  }

  /** The n low bytes of v, least significant first. */
  function LittleEndian(v: int, n: nat): (r: seq<Byte>)
    ensures |r| == n
    decreases n
  {
    if n == 0 then [] else [v % 256] + LittleEndian(v / 256, n - 1)
  }

  /** The unsigned value of bytes, least significant first. */
  function FromLittleEndian(bytes: seq<Byte>): nat
  {
    if |bytes| == 0 then 0 else bytes[0] + 256 * FromLittleEndian(bytes[1..])
  }

  /** extractByte: byte `byte` of val, counted from the least
      significant; a byte index past the native type throws. */
  function ExtractByte(c: IntegerColumn, val: int, byte: nat): (r: Result<Byte>)
    requires ValidWidth(c.width)
    ensures r.Err? <==> byte >= SizeBytes(c)
    ensures r.Err? ==> r.kind == InvalidArgument
    ensures r.Ok? ==> r.value == LittleEndian(val, SizeBytes(c))[byte]
  {
    if byte >= SizeBytes(c) then Err(InvalidArgument)
    else
      LittleEndianAt(val, SizeBytes(c), byte);
      Ok((val / ByteWeight(byte)) % 256)
  }

  lemma {:induction false} LittleEndianAt(v: int, n: nat, j: nat)
    requires j < n
    ensures LittleEndian(v, n)[j] == (v / ByteWeight(j)) % 256
    decreases n
  {
    if j > 0 {
      LittleEndianAt(v / 256, n - 1, j - 1);
      DivDiv(v, 256, ByteWeight(j - 1));
    }
  }

  lemma {:induction false} ByteWeightPow2(n: nat)
    ensures ByteWeight(n) == Pow2(8 * n)
    decreases n
  {
    if n > 0 {
      ByteWeightPow2(n - 1);
      Pow2Add(8, 8 * (n - 1));
      Pow2Natives();
    }
  }

  lemma {:induction false} FromLittleEndianBound(bytes: seq<Byte>)
    ensures FromLittleEndian(bytes) < ByteWeight(|bytes|)
    decreases |bytes|
  {
    if |bytes| > 0 {
      FromLittleEndianBound(bytes[1..]);
    }
  }

  lemma ByteModStep(v: int, m: nat)
    requires m >= 1
    ensures v % 256 + 256 * ((v / 256) % m) == v % (256 * m)
  {
    var q, r := v / 256, v % 256;
    var q2, r2 := q / m, q % m;
    assert v == 256 * m * q2 + (256 * r2 + r);
    ModUnique(v, 256 * m, q2, 256 * r2 + r);
  }

  /** Reading back the n bytes written for v gives v modulo 256^n. */
  lemma {:induction false} FromLittleEndianOf(v: int, n: nat)
    ensures FromLittleEndian(LittleEndian(v, n)) == v % ByteWeight(n)
    decreases n
  {
    if n > 0 {
      var bytes := LittleEndian(v, n);
      assert bytes[1..] == LittleEndian(v / 256, n - 1);
      FromLittleEndianOf(v / 256, n - 1);
      ByteModStep(v, ByteWeight(n - 1));
    }
  }

  /** Writing the value read from bytes gives the same bytes. */
  lemma {:induction false} LittleEndianOfFrom(bytes: seq<Byte>)
    ensures LittleEndian(FromLittleEndian(bytes), |bytes|) == bytes
    decreases |bytes|
  {
    if |bytes| > 0 {
      var u := FromLittleEndian(bytes);
      ModUnique(u, 256, FromLittleEndian(bytes[1..]), bytes[0]);
      LittleEndianOfFrom(bytes[1..]);
    }
  }

  /** The bytes of v depend only on v modulo 256^n. */
  lemma LittleEndianMod(v: int, n: nat)
    ensures LittleEndian(v % ByteWeight(n), n) == LittleEndian(v, n)
  {
    FromLittleEndianOf(v, n);
    LittleEndianOfFrom(LittleEndian(v, n));
  }

  /** reconstructFromBytes: the native value whose bytes, least
      significant first, are data[offset..offset + size].  The source ORs
      each byte shifted into place into the native accumulator; the
      shifted bytes do not overlap, so the OR is a sum, taken here in the
      unsigned accumulator and read as the native type at the end. */
  method ReconstructFromBytes(c: IntegerColumn, data: seq<Byte>, offset: nat) returns (val: int)
    requires ValidWidth(c.width) && offset + SizeBytes(c) <= |data|
    ensures val == ValueOf(c, data[offset..offset + SizeBytes(c)])
    ensures InNativeRange(c, val)
  {
    var size := SizeBytes(c);
    var acc: int := 0;
    var weight: int := 1;
    for i := 0 to size
      invariant weight == ByteWeight(i)
      invariant acc == FromLittleEndian(data[offset..offset + size][..i])
    {
      FromLittleEndianSnoc(data[offset..offset + size][..i], data[offset + i]);
      assert data[offset..offset + size][..i + 1] == data[offset..offset + size][..i] + [data[offset + i]];
      acc := acc + data[offset + i] * weight;
      weight := weight * 256;
    }
    assert data[offset..offset + size][..size] == data[offset..offset + size];
    val := Native(c, acc);
  }

  lemma {:induction false} FromLittleEndianSnoc(bytes: seq<Byte>, b: Byte)
    ensures FromLittleEndian(bytes + [b]) == FromLittleEndian(bytes) + b * ByteWeight(|bytes|)
    decreases |bytes|
  {
    if |bytes| > 0 {
      assert (bytes + [b])[1..] == bytes[1..] + [b];
      FromLittleEndianSnoc(bytes[1..], b);
    }
  }

  /** Reading a native value back from the bytes written for it gives the
      value itself. */
  lemma ReconstructRoundTrip(c: IntegerColumn, v: int)
    requires ValidWidth(c.width) && InNativeRange(c, v)
    ensures ValueOf(c, LittleEndian(v, SizeBytes(c))) == v
  {
    FromLittleEndianOf(v, SizeBytes(c));
    ByteWeightPow2(SizeBytes(c));
    var p := Pow2(c.width);
    assert p == 2 * Pow2(c.width - 1);
    if v >= 0 {
      ModUnique(v, p, 0, v);
    } else {
      ModUnique(v, p, -1, v + p);
    }
    ModUnique(v % p, p, 0, v % p);
  }

  /** Writing the value read from a column's bytes gives the same bytes:
      every byte pattern is the image of exactly one native value. */
  lemma BytesRoundTrip(c: IntegerColumn, bytes: seq<Byte>)
    requires ValidWidth(c.width) && |bytes| == SizeBytes(c)
    ensures InNativeRange(c, ValueOf(c, bytes))
    ensures LittleEndian(ValueOf(c, bytes), SizeBytes(c)) == bytes
  {
    var u := FromLittleEndian(bytes);
    var n := SizeBytes(c);
    FromLittleEndianBound(bytes);
    ByteWeightPow2(n);
    var p := Pow2(c.width);
    assert p == 2 * Pow2(c.width - 1);
    ModUnique(u, p, 0, u);
    var v := Native(c, u);
    if v == u {
      ModUnique(v, p, 0, u);
    } else {
      ModUnique(v, p, -1, u);
    }
    LittleEndianMod(v, n);
    LittleEndianOfFrom(bytes);
  }

  /** The rows after the column's values are written at byteOffset. */
  function Written(c: IntegerColumn, rows: seq<seq<Byte>>, byteOffset: nat, values: seq<int>): (r: seq<seq<Byte>>)
    requires ValidWidth(c.width) && |values| == |rows| && Fits(rows, byteOffset, SizeBytes(c))
    ensures |r| == |rows| && Fits(r, byteOffset, SizeBytes(c))
  {
    seq(|rows|, i requires 0 <= i < |rows| => WriteAt(rows[i], byteOffset, LittleEndian(values[i], SizeBytes(c))))
  }

  /** The inner loop of serializeColumnAsPlaintextBytes: the bytes of v,
      least significant first, written into row from offset on. */
  method WriteValue(c: IntegerColumn, v: int, row: seq<Byte>, offset: nat) returns (r: seq<Byte>)
    requires ValidWidth(c.width) && offset + SizeBytes(c) <= |row|
    ensures r == WriteAt(row, offset, LittleEndian(v, SizeBytes(c)))
  {
    var size := SizeBytes(c);
    r := row;
    for j := 0 to size
      invariant r == WriteAt(row, offset, LittleEndian(v, size)[..j])
    {
      var e := ExtractByte(c, v, j);
      assert LittleEndian(v, size)[..j + 1] == LittleEndian(v, size)[..j] + [e.value];
      r := r[j + offset := e.value];
    }
    assert LittleEndian(v, size)[..size] == LittleEndian(v, size);
  }

  /** serializeColumnAsPlaintextBytes: a value count other than the row
      count throws before anything is written; otherwise each row gets its
      value little-endian at byteOffset and keeps every other byte. */
  method Serialize(c: IntegerColumn, values: seq<int>, buffers: WriteBuffers, byteOffset: nat) returns (r: Result<()>)
    requires ValidWidth(c.width)
    requires |values| == |buffers.rows| ==> Fits(buffers.rows, byteOffset, SizeBytes(c))
    modifies buffers
    ensures |values| != |old(buffers.rows)| ==> r == Err(RuntimeError) && buffers.rows == old(buffers.rows)
    ensures |values| == |old(buffers.rows)| ==> r == Ok(()) && buffers.rows == Written(c, old(buffers.rows), byteOffset, values)
  {
    if |values| != |buffers.rows| {
      return Err(RuntimeError);
    }
    ghost var rows0 := buffers.rows;
    for i := 0 to |buffers.rows|
      invariant |buffers.rows| == |rows0|
      invariant forall k :: 0 <= k < i ==> buffers.rows[k] == Written(c, rows0, byteOffset, values)[k]
      invariant forall k :: i <= k < |rows0| ==> buffers.rows[k] == rows0[k]
    {
      var row := WriteValue(c, values[i], buffers.rows[i], byteOffset);
      buffers.rows := buffers.rows[i := row];
    }
    return Ok(());
  }

  /** The shares the column reads back, one per row. */
  function Decoded(c: IntegerColumn, shares: seq<seq<Byte>>, byteOffset: nat): (r: seq<int>)
    requires ValidWidth(c.width) && Fits(shares, byteOffset, SizeBytes(c))
    ensures |r| == |shares|
  {
    seq(|shares|, i requires 0 <= i < |shares| => ValueOf(c, shares[i][byteOffset..byteOffset + SizeBytes(c)]))
  }

  /** deserializeSharesToMPCType, up to the conversion to the MPC integer:
      each row's share is the native value read at byteOffset. */
  method DeserializeShares(c: IntegerColumn, shares: seq<seq<Byte>>, byteOffset: nat) returns (r: seq<int>)
    requires ValidWidth(c.width) && Fits(shares, byteOffset, SizeBytes(c))
    ensures r == Decoded(c, shares, byteOffset)
    ensures forall i :: 0 <= i < |r| ==> InNativeRange(c, r[i])
  {
    r := [];
    for i := 0 to |shares|
      invariant |r| == i
      invariant forall k :: 0 <= k < i ==> r[k] == Decoded(c, shares, byteOffset)[k] && InNativeRange(c, r[k])
    {
      var v := ReconstructFromBytes(c, shares[i], byteOffset);
      r := r + [v];
    }
  }

  /** Shares holding each value's little-endian bytes at byteOffset read
      back as those values. */
  lemma DecodeEncodedValues(c: IntegerColumn, shares: seq<seq<Byte>>, byteOffset: nat, values: seq<int>)
    requires ValidWidth(c.width) && |values| == |shares| && Fits(shares, byteOffset, SizeBytes(c))
    requires forall i :: 0 <= i < |values| ==> InNativeRange(c, values[i])
    requires forall i :: 0 <= i < |values| ==> shares[i][byteOffset..byteOffset + SizeBytes(c)] == LittleEndian(values[i], SizeBytes(c))
    ensures Decoded(c, shares, byteOffset) == values
  {
    forall i | 0 <= i < |values|
      ensures Decoded(c, shares, byteOffset)[i] == values[i]
    {
      ReconstructRoundTrip(c, values[i]);
    }
  }

  lemma DecodeWritten(c: IntegerColumn, rows: seq<seq<Byte>>, byteOffset: nat, values: seq<int>)
    requires ValidWidth(c.width) && |values| == |rows| && Fits(rows, byteOffset, SizeBytes(c))
    requires forall i :: 0 <= i < |values| ==> InNativeRange(c, values[i])
    ensures Decoded(c, Written(c, rows, byteOffset, values), byteOffset) == values
  {
    var w := Written(c, rows, byteOffset, values);
    forall i | 0 <= i < |values|
      ensures Decoded(c, w, byteOffset)[i] == values[i]
    {
      assert w[i][byteOffset..byteOffset + SizeBytes(c)] == LittleEndian(values[i], SizeBytes(c));
      ReconstructRoundTrip(c, values[i]);
    }
  }
}
