/** The vocabulary the column serialisers share: the column types a row
    structure can hold, bytes, and the per-row write buffers that the
    serialisers fill in place. */
module ColumnDefinition {
  /** SupportedColumnTypes. */
  datatype ColumnType =
    | Bit
    | PackedBitField
    | UInt32
    | Int32
    | Int64
    | UInt32Vec
    | Int32Vec
    | Int64Vec

  /** An unsigned char. */
  type Byte = x: int | 0 <= x < 256

  /** row with `bytes` written from `offset` on; every other byte is
      unchanged. */
  function WriteAt(row: seq<Byte>, offset: nat, bytes: seq<Byte>): (r: seq<Byte>)
    requires offset + |bytes| <= |row|
    ensures |r| == |row|
    ensures r[offset..offset + |bytes|] == bytes
    ensures forall k :: 0 <= k < |row| && !(offset <= k < offset + |bytes|) ==> r[k] == row[k]
  {
    row[..offset] + bytes + row[offset + |bytes|..]
  }

  /** Writing a then, right after it, b is writing a + b. */
  lemma WriteAtAppend(row: seq<Byte>, offset: nat, a: seq<Byte>, b: seq<Byte>)
    requires offset + |a| + |b| <= |row|
    ensures WriteAt(WriteAt(row, offset, a), offset + |a|, b) == WriteAt(row, offset, a + b)
  {
    var once := WriteAt(row, offset, a);
    assert once[..offset + |a|] == row[..offset] + a;
  }

  /** Every row has room for `size` bytes from `offset` on. */
  predicate Fits(rows: seq<seq<Byte>>, offset: nat, size: nat)
  {
    forall i :: 0 <= i < |rows| ==> offset + size <= |rows[i]|
  }

  /** `n` rows of `size` zero bytes. */
  function ZeroRows(n: nat, size: nat): (r: seq<seq<Byte>>)
    ensures |r| == n && Fits(r, 0, size)
    ensures forall i :: 0 <= i < n ==> r[i] == seq(size, _ => 0)
  {
    seq(n, _ => seq(size, _ => 0))
  }

  /** The writeBuffers vector of vectors a row serialiser fills: one byte
      row per input row, updated in place by the column serialisers. */
  class WriteBuffers {
    var rows: seq<seq<Byte>>

    constructor(numRows: nat, rowSize: nat)
      ensures rows == ZeroRows(numRows, rowSize)
    {
      rows := ZeroRows(numRows, rowSize);
    }
  }
}
