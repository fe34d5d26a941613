/** FixedSizeArrayColumn: a column holding `length` values of an inner
    integer column per row, element i at i times the inner size. */
module FixedSizeArrayColumns {
  import opened Common
  import opened ColumnDefinition
  import IntegerColumns

  /** The column's name, its inner column and its length. */
  datatype FixedSizeArrayColumn = FixedSizeArrayColumn(name: string, inner: IntegerColumns.IntegerColumn, length: nat)

  predicate Valid(col: FixedSizeArrayColumn)
  {
    IntegerColumns.ValidWidth(col.inner.width)
  }

  /** The size of one element. */
  function InnerSize(col: FixedSizeArrayColumn): nat
  {
    IntegerColumns.SizeBytes(col.inner)
  }

  /** getColumnSizeBytes: length elements of the inner size
      (SizeBytesIs). */
  function SizeBytes(col: FixedSizeArrayColumn): nat
  {
    Times(InnerSize(col), col.length)
  }

  /** The element type of a vector column type. */
  function ElementType(t: ColumnType): ColumnType
  {
    match t
    case UInt32Vec => UInt32
    case Int32Vec => Int32
    case Int64Vec => Int64
    case _ => t
  }

  /** The switch of getColumnType: the vector type of an inner uint32,
      int32 or int64 column; any other inner type throws. */
  function VecType(innerType: ColumnType): (r: Result<ColumnType>)
    ensures r.Ok? <==> innerType in {UInt32, Int32, Int64}
    ensures r.Err? ==> r.kind == RuntimeError
    ensures r.Ok? ==> r.value in {UInt32Vec, Int32Vec, Int64Vec} && ElementType(r.value) == innerType
  {
    match innerType
    case UInt32 => Ok(UInt32Vec)
    case Int32 => Ok(Int32Vec)
    case Int64 => Ok(Int64Vec)
    case _ => Err(RuntimeError)
  }

  /** getColumnType: the inner column's type, throwing if it throws,
      mapped to its vector type. */
  function ColumnTypeOf(col: FixedSizeArrayColumn): (r: Result<ColumnType>)
    ensures r.Ok? <==> IntegerColumns.ColumnTypeOf(col.inner).Ok?
    ensures r.Err? ==> r.kind == RuntimeError
    ensures r.Ok? ==> ElementType(r.value) == IntegerColumns.ColumnTypeOf(col.inner).value
  {
    var t :- IntegerColumns.ColumnTypeOf(col.inner);
    VecType(t)
  }

  /** i elements of s bytes: s * i, written as repeated addition so that
      offsets stay linear for the solver (TimesIs). */
  function Times(s: nat, i: nat): nat
  {
    if i == 0 then 0 else Times(s, i - 1) + s
  }

  lemma {:induction false} TimesIs(s: nat, i: nat)
    ensures Times(s, i) == s * i
  {
    if i > 0 {
      TimesIs(s, i - 1);
      MulAdd(s, i - 1, 1);
    }
  }

  /** The column's size is its length times the inner size. */
  lemma SizeBytesIs(col: FixedSizeArrayColumn)
    ensures SizeBytes(col) == col.length * InnerSize(col)
  {
    TimesIs(InnerSize(col), col.length);
  }

  lemma {:induction false} TimesMonotone(s: nat, i: nat, j: nat)
    requires i <= j
    ensures Times(s, i) <= Times(s, j)
    decreases j
  {
    if i < j {
      TimesMonotone(s, i, j - 1);
    }
  }

  /** The bytes of values, each in `size` bytes little-endian, one after
      the other. */
  function Encoded(values: seq<int>, size: nat): (r: seq<Byte>)
    decreases |values|
  {
    if |values| == 0 then []
    else Encoded(values[..|values| - 1], size) + IntegerColumns.LittleEndian(values[|values| - 1], size)
  }

  lemma {:induction false} EncodedLength(values: seq<int>, size: nat)
    ensures |Encoded(values, size)| == Times(size, |values|)
    decreases |values|
  {
    if |values| > 0 {
      EncodedLength(values[..|values| - 1], size);
    }
  }

  /** Element i sits at i times the element size. */
  lemma {:induction false} EncodedAt(values: seq<int>, size: nat, i: nat)
    requires i < |values|
    ensures Times(size, i) + size <= |Encoded(values, size)|
    ensures Encoded(values, size)[Times(size, i)..Times(size, i) + size] == IntegerColumns.LittleEndian(values[i], size)
    decreases |values|
  {
    var n := |values|;
    var front := Encoded(values[..n - 1], size);
    var last := IntegerColumns.LittleEndian(values[n - 1], size);
    assert Encoded(values, size) == front + last;
    EncodedLength(values[..n - 1], size);
    var t := Times(size, i);
    if i < n - 1 {
      EncodedAt(values[..n - 1], size, i);
      assert values[..n - 1][i] == values[i];
      assert (front + last)[t..t + size] == front[t..t + size];
    } else {
      assert (front + last)[t..t + size] == last;
    }
  }

  /** serializeColumnAsPlaintextBytes: the inner column writes element i
      at i times its size from the start of the array's bytes, which sit
      in buf at `start` (the source's pointer); nothing else in buf
      changes.  The source reads the elements from raw memory, so exactly
      `length` must be there. */
  method Serialize(col: FixedSizeArrayColumn, values: seq<int>, buf: seq<Byte>, start: nat) returns (r: seq<Byte>)
    requires Valid(col) && |values| == col.length && start + SizeBytes(col) <= |buf|
    ensures |Encoded(values, InnerSize(col))| == SizeBytes(col)
    ensures r == WriteAt(buf, start, Encoded(values, InnerSize(col)))
  {
    var innerTypeSize := InnerSize(col);
    EncodedLength(values, innerTypeSize);
    r := buf;
    for i := 0 to col.length
      invariant Times(innerTypeSize, i) <= SizeBytes(col)
      invariant |Encoded(values[..i], innerTypeSize)| == Times(innerTypeSize, i)
      invariant r == WriteAt(buf, start, Encoded(values[..i], innerTypeSize))
    {
      TimesIs(innerTypeSize, i);
      var offset := innerTypeSize * i;
      TimesMonotone(innerTypeSize, i + 1, col.length);
      ghost var before := Encoded(values[..i], innerTypeSize);
      r := IntegerColumns.WriteValue(col.inner, values[i], r, start + offset);
      WriteAtAppend(buf, start, before, IntegerColumns.LittleEndian(values[i], innerTypeSize));
      assert values[..i + 1][..i] == values[..i];
    }
    assert values[..col.length] == values;
  }

  /** The array the column reads back: `count` inner columns, the first
      at offset and each next one an inner size further on. */
  function DecodedFrom(c: IntegerColumns.IntegerColumn, shares: seq<seq<Byte>>, offset: nat, count: nat): (r: seq<seq<int>>)
    requires IntegerColumns.ValidWidth(c.width) && Fits(shares, offset, Times(IntegerColumns.SizeBytes(c), count))
    ensures |r| == count
    ensures forall i :: 0 <= i < count ==> |r[i]| == |shares|
    decreases count
  {
    if count == 0 then []
    else [IntegerColumns.Decoded(c, shares, offset)] + DecodedFrom(c, shares, offset + IntegerColumns.SizeBytes(c), count - 1)
  }

  /** What deserialisation reads: element i is the inner column read at
      byteOffset plus i times the inner size (DecodedAt). */
  function Decoded(col: FixedSizeArrayColumn, shares: seq<seq<Byte>>, byteOffset: nat): (r: seq<seq<int>>)
    requires Valid(col) && Fits(shares, byteOffset, SizeBytes(col))
    ensures |r| == col.length
    ensures forall i :: 0 <= i < col.length ==> |r[i]| == |shares|
  {
    DecodedFrom(col.inner, shares, byteOffset, col.length)
  }

  lemma {:induction false} TimesAdd(s: nat, i: nat, j: nat)
    ensures Times(s, i) + Times(s, j) == Times(s, i + j)
    decreases j
  {
    if j > 0 {
      TimesAdd(s, i, j - 1);
    }
  }

  lemma {:induction false} DecodedFromAt(c: IntegerColumns.IntegerColumn, shares: seq<seq<Byte>>, offset: nat, count: nat, i: nat)
    requires IntegerColumns.ValidWidth(c.width) && Fits(shares, offset, Times(IntegerColumns.SizeBytes(c), count)) && i < count
    ensures Fits(shares, offset + Times(IntegerColumns.SizeBytes(c), i), IntegerColumns.SizeBytes(c))
    ensures DecodedFrom(c, shares, offset, count)[i] == IntegerColumns.Decoded(c, shares, offset + Times(IntegerColumns.SizeBytes(c), i))
    decreases count
  {
    var s := IntegerColumns.SizeBytes(c);
    if i > 0 {
      DecodedFromAt(c, shares, offset + s, count - 1, i - 1);
      TimesAdd(s, 1, i - 1);
    }
  }

  /** Element i of the array read back is the inner column read at
      byteOffset plus i times the inner size. */
  lemma DecodedAt(col: FixedSizeArrayColumn, shares: seq<seq<Byte>>, byteOffset: nat, i: nat)
    requires Valid(col) && Fits(shares, byteOffset, SizeBytes(col)) && i < col.length
    ensures Fits(shares, byteOffset + Times(InnerSize(col), i), InnerSize(col))
    ensures Decoded(col, shares, byteOffset)[i] == IntegerColumns.Decoded(col.inner, shares, byteOffset + Times(InnerSize(col), i))
  {
    DecodedFromAt(col.inner, shares, byteOffset, col.length, i);
  }

  /** deserializeSharesToMPCType, up to the conversion to MPC integers:
      one inner column per element, read at its offset (kept here as a
      running sum rather than recomputed as a product). */
  method Deserialize(col: FixedSizeArrayColumn, shares: seq<seq<Byte>>, byteOffset: nat) returns (r: seq<seq<int>>)
    requires Valid(col) && Fits(shares, byteOffset, SizeBytes(col))
    ensures r == Decoded(col, shares, byteOffset)
  {
    var innerTypeSize := InnerSize(col);
    r := [];
    var offset := byteOffset;
    for i := 0 to col.length
      invariant offset == byteOffset + Times(innerTypeSize, i)
      invariant Fits(shares, offset, Times(innerTypeSize, col.length - i))
      invariant r + DecodedFrom(col.inner, shares, offset, col.length - i) == Decoded(col, shares, byteOffset)
    {
      TimesAdd(innerTypeSize, 1, col.length - i - 1);
      var innerVal := IntegerColumns.DeserializeShares(col.inner, shares, offset);
      assert DecodedFrom(col.inner, shares, offset, col.length - i)
        == [innerVal] + DecodedFrom(col.inner, shares, offset + innerTypeSize, col.length - i - 1);
      r := r + [innerVal];
      offset := offset + innerTypeSize;
    }
  }

  /** Reading the column back from rows that hold each row's array as
      written gives element i of row k at [i][k]. */
  lemma DecodeEncoded(col: FixedSizeArrayColumn, shares: seq<seq<Byte>>, byteOffset: nat, rowValues: seq<seq<int>>)
    requires Valid(col) && Fits(shares, byteOffset, SizeBytes(col)) && |rowValues| == |shares|
    requires forall k :: 0 <= k < |shares| ==> |rowValues[k]| == col.length
    requires forall k, i :: 0 <= k < |shares| && 0 <= i < col.length ==> IntegerColumns.InNativeRange(col.inner, rowValues[k][i])
    requires forall k :: 0 <= k < |shares| ==> shares[k][byteOffset..byteOffset + SizeBytes(col)] == Encoded(rowValues[k], InnerSize(col))
    ensures forall i, k :: 0 <= i < col.length && 0 <= k < |shares| ==> Decoded(col, shares, byteOffset)[i][k] == rowValues[k][i]
  {
    var s := InnerSize(col);
    forall i, k | 0 <= i < col.length && 0 <= k < |shares|
      ensures Decoded(col, shares, byteOffset)[i][k] == rowValues[k][i]
    {
      DecodedAt(col, shares, byteOffset, i);
      ElementBytes(col, shares[k], byteOffset, rowValues[k], i);
      IntegerColumns.ReconstructRoundTrip(col.inner, rowValues[k][i]);
    }
  }

  /** The bytes of element i of an encoded array. */
  lemma ElementBytes(col: FixedSizeArrayColumn, row: seq<Byte>, byteOffset: nat, values: seq<int>, i: nat)
    requires byteOffset + SizeBytes(col) <= |row| && |values| == col.length && i < col.length
    requires row[byteOffset..byteOffset + SizeBytes(col)] == Encoded(values, InnerSize(col))
    ensures byteOffset + Times(InnerSize(col), i) + InnerSize(col) <= |row|
    ensures row[byteOffset + Times(InnerSize(col), i)..byteOffset + Times(InnerSize(col), i) + InnerSize(col)]
      == IntegerColumns.LittleEndian(values[i], InnerSize(col))
  {
    EncodedAt(values, InnerSize(col), i);
    SliceOfSlice(row, byteOffset, SizeBytes(col), Times(InnerSize(col), i), InnerSize(col));
  }
}
