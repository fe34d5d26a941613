/** PackedBitFieldColumn: up to eight boolean sub-columns packed into one
    byte per row, sub-column j in bit j, and unpacked again from the
    secret-shared bytes. */
module PackedBitFields {
  import opened Common
  import opened ColumnDefinition
  import IntArith

  /** The column's name and the names of the bits it packs. */
  datatype PackedBitFieldColumn = PackedBitFieldColumn(name: string, subColumnNames: seq<string>)

  /** The bits of one byte. */
  const MaxSubColumns: nat := 8

  /** getColumnSizeBytes. */
  const SizeBytes: nat := 1

  /** getColumnType. */
  const Type: ColumnType := PackedBitField

  /** The constructor: more than eight sub-columns throw. */
  function Make(name: string, subColumnNames: seq<string>): (r: Result<PackedBitFieldColumn>)
    ensures r.Err? <==> |subColumnNames| > MaxSubColumns
    ensures r.Err? ==> r.kind == RuntimeError
    ensures r.Ok? ==> r.value.name == name && r.value.subColumnNames == subColumnNames
  {
    if |subColumnNames| > MaxSubColumns then Err(RuntimeError)
    else Ok(PackedBitFieldColumn(name, subColumnNames))
  }

  /** The byte a row's bits pack into: bit j of the byte is bits[j]; the
      byte is an unsigned char, so bits from index 8 on are lost. */
  function PackedByte(bits: seq<bool>): (r: Byte)
  {
    var low := if |bits| <= 8 then bits else bits[..8];
    BitsToNatBound(low);
    Pow2Monotone(|low|, 8);
    Pow2Natives();
    BitsToNat(low)
  }

  /** The inner loop of serializeColumnAsPlaintextBytes: each bit ORed
      into the byte at its position. */
  method PackBits(bits: seq<bool>) returns (toWrite: Byte)
    ensures toWrite == PackedByte(bits)
  {
    toWrite := 0;
    for j := 0 to |bits|
      invariant toWrite == BitsToNat(bits[..if j <= 8 then j else 8])
    {
      if j < 8 {
        IntArith.BitsToNatSnoc(bits[..j], bits[j]);
        assert bits[..j + 1] == bits[..j] + [bits[j]];
        BitsToNatBound(bits[..j + 1]);
        Pow2Monotone(j + 1, 8);
        Pow2Natives();
        if bits[j] {
          toWrite := toWrite + Pow2(j);
        }
      }
    }
    assert |bits| <= 8 ==> bits[..|bits|] == bits;
  }

  /** The rows after each row's byte at byteOffset is its packed bits. */
  function Packed(rows: seq<seq<Byte>>, byteOffset: nat, bitPack: seq<seq<bool>>): (r: seq<seq<Byte>>)
    requires |bitPack| >= |rows| && Fits(rows, byteOffset, SizeBytes)
    ensures |r| == |rows| && Fits(r, byteOffset, SizeBytes)
  {
    seq(|rows|, i requires 0 <= i < |rows| => rows[i][byteOffset := PackedByte(bitPack[i])])
  }

  /** serializeColumnAsPlaintextBytes: row i's byte at byteOffset becomes
      the packed bits bitPack[i]; nothing else changes.  The source does
      not compare the bit rows with the sub-columns or the row count; it
      reads bitPack[i] for every row, so it must have that many. */
  method Serialize(bitPack: seq<seq<bool>>, buffers: WriteBuffers, byteOffset: nat)
    requires |bitPack| >= |buffers.rows| && Fits(buffers.rows, byteOffset, SizeBytes)
    modifies buffers
    ensures buffers.rows == Packed(old(buffers.rows), byteOffset, bitPack)
  {
    ghost var rows0 := buffers.rows;
    for i := 0 to |buffers.rows|
      invariant |buffers.rows| == |rows0|
      invariant forall k :: 0 <= k < i ==> buffers.rows[k] == Packed(rows0, byteOffset, bitPack)[k]
      invariant forall k :: i <= k < |rows0| ==> buffers.rows[k] == rows0[k]
    {
      var toWrite := PackBits(bitPack[i]);
      buffers.rows := buffers.rows[i := buffers.rows[i][byteOffset := toWrite]];
    }
  }

  /** Writing the same bit pack twice leaves what writing it once left. */
  lemma PackedIdempotent(rows: seq<seq<Byte>>, byteOffset: nat, bitPack: seq<seq<bool>>)
    requires |bitPack| >= |rows| && Fits(rows, byteOffset, SizeBytes)
    ensures Packed(Packed(rows, byteOffset, bitPack), byteOffset, bitPack) == Packed(rows, byteOffset, bitPack)
  {
    var once := Packed(rows, byteOffset, bitPack);
    var twice := Packed(once, byteOffset, bitPack);
    forall i | 0 <= i < |rows|
      ensures twice[i] == once[i]
    {
    }
  }

  /** Sub-column j of the shares: bit j of each row's byte. */
  function Unpacked(col: PackedBitFieldColumn, shares: seq<seq<Byte>>, offset: nat): (r: seq<seq<bool>>)
    requires Fits(shares, offset, SizeBytes)
    ensures |r| == |col.subColumnNames|
    ensures forall j :: 0 <= j < |r| ==> |r[j]| == |shares|
  {
    seq(|col.subColumnNames|, j requires 0 <= j < |col.subColumnNames| =>
      seq(|shares|, i requires 0 <= i < |shares| => Common.Bit(shares[i][offset], j)))
  }

  /** deserializeSharesToMPCType, up to the conversion to secret bits:
      sub-column j of row i is (byte >> j) & 1. */
  method Deserialize(col: PackedBitFieldColumn, shares: seq<seq<Byte>>, offset: nat) returns (r: seq<seq<bool>>)
    requires Fits(shares, offset, SizeBytes)
    ensures r == Unpacked(col, shares, offset)
  {
    var n := |col.subColumnNames|;
    r := seq(n, _ => seq(|shares|, _ => false));
    for i := 0 to |shares|
      invariant |r| == n
      invariant forall j :: 0 <= j < n ==> |r[j]| == |shares|
      invariant forall j, k :: 0 <= j < n && 0 <= k < i ==> r[j][k] == Common.Bit(shares[k][offset], j)
    {
      var packedValues := shares[i][offset];
      for j := 0 to n
        invariant |r| == n
        invariant forall j' :: 0 <= j' < n ==> |r[j']| == |shares|
        invariant forall j', k :: 0 <= j' < n && 0 <= k < i ==> r[j'][k] == Common.Bit(shares[k][offset], j')
        invariant forall j' :: 0 <= j' < j ==> r[j'][i] == Common.Bit(packedValues, j')
      {
        r := r[j := r[j][i := Common.Bit(packedValues, j)]];
      }
    }
    forall j | 0 <= j < n
      ensures r[j] == Unpacked(col, shares, offset)[j]
    {
    }
  }

  /** Unpacking a packed byte gives back the bits packed, for up to eight
      bits. */
  lemma {:induction false} UnpackPacked(bits: seq<bool>, j: nat)
    requires |bits| <= MaxSubColumns && j < |bits|
    ensures Common.Bit(PackedByte(bits), j) == bits[j]
  {
    NatToBitsAt(BitsToNat(bits), |bits|, j);
    BitsToNatToBits(bits);
  }

  /** Packing the eight bits of a byte gives back the byte. */
  lemma PackUnpacked(b: Byte)
    ensures PackedByte(seq(8, j requires 0 <= j < 8 => Common.Bit(b, j))) == b
  {
    var bits := seq(8, j requires 0 <= j < 8 => Common.Bit(b, j));
    forall j | 0 <= j < 8
      ensures bits[j] == NatToBits(b, 8)[j]
    {
      NatToBitsAt(b, 8, j);
    }
    assert bits == NatToBits(b, 8);
    NatToBitsValue(b, 8);
    Pow2Natives();
    ModUnique(b, 256, 0, b);
  }

  /** Reading a column back from the bytes it packed gives each
      sub-column's bits, one per row, when every row has one bit per
      sub-column. */
  lemma UnpackedPacked(col: PackedBitFieldColumn, rows: seq<seq<Byte>>, byteOffset: nat, bitPack: seq<seq<bool>>)
    requires |col.subColumnNames| <= MaxSubColumns
    requires |bitPack| == |rows| && Fits(rows, byteOffset, SizeBytes)
    requires forall i :: 0 <= i < |bitPack| ==> |bitPack[i]| == |col.subColumnNames|
    ensures forall j, i :: 0 <= j < |col.subColumnNames| && 0 <= i < |rows| ==>
      Unpacked(col, Packed(rows, byteOffset, bitPack), byteOffset)[j][i] == bitPack[i][j]
  {
    forall j, i | 0 <= j < |col.subColumnNames| && 0 <= i < |rows|
      ensures Unpacked(col, Packed(rows, byteOffset, bitPack), byteOffset)[j][i] == bitPack[i][j]
    {
      UnpackPacked(bitPack[i], j);
    }
  }
}
