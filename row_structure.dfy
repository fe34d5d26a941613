/** RowStructureDefinition: the layout of one row of the unified data
    process.  The constructor turns the column definitions, in the order
    of their (ordered) map, into serialisers, packing Bit columns eight to
    a byte; serialisation writes every row's columns one after the other,
    and deserialisation turns the secret-shared bit strings back into
    bytes and reads each column at its offset. */
module RowStructures {
  import opened Common
  import opened ColumnDefinition
  import IntegerColumns
  import PackedBitFields
  import FixedSizeArrayColumns

  /** One entry of the column definition map: a name and its type. */
  datatype Definition = Definition(name: string, kind: ColumnType)

  /** A column serialiser of the structure. */
  datatype Column =
    | IntegerCol(ic: IntegerColumns.IntegerColumn)
    | PackedCol(pc: PackedBitFields.PackedBitFieldColumn)
    | ArrayCol(ac: FixedSizeArrayColumns.FixedSizeArrayColumn)

  /** The structure: its column serialisers, in order. */
  datatype RowStructureDefinition = RowStructureDefinition(columns: seq<Column>)

  /** std::to_string of a natural number. */
  function DecimalString(n: nat): string
  {
    var digit := (('0' as int) + n % 10) as char;
    if n < 10 then [digit] else DecimalString(n / 10) + [digit]
  }

  /** The name of the k-th packed column. */
  function PackedName(k: nat): string
  {
    "packedBits" + DecimalString(k)
  }

  function Packed(k: nat, bitColumns: seq<string>): Column
  {
    PackedCol(PackedBitFields.PackedBitFieldColumn(PackedName(k), bitColumns))
  }

  /** The constructor's loop variables: the columns so far, the Bit
      columns not yet packed and the number of packed columns. */
  datatype Builder = Builder(columns: seq<Column>, bitColumns: seq<string>, bytesPacked: nat)

  /** One turn of the constructor's loop: a Bit definition joins the
      pending group, which is first packed when it already holds eight; a
      PackedBitField definition throws; every other type gets its own
      column. */
  function Step(b: Builder, d: Definition, paddingSize: nat): Result<Builder>
  {
    match d.kind
    case Bit =>
      if |b.bitColumns| == PackedBitFields.MaxSubColumns then
        Ok(Builder(b.columns + [Packed(b.bytesPacked, b.bitColumns)], [d.name], b.bytesPacked + 1))
      else
        Ok(b.(bitColumns := b.bitColumns + [d.name]))
    case PackedBitField => Err(RuntimeError)
    case _ => Ok(b.(columns := b.columns + [OtherColumn(d, paddingSize)]))
  }

  /** The column of an integer or vector definition: int32, int64 and
      uint32 integer columns, and arrays of paddingSize of those. */
  function OtherColumn(d: Definition, paddingSize: nat): (c: Column)
    requires d.kind != Bit && d.kind != PackedBitField
    ensures !c.PackedCol? && Name(c) == d.name && ColumnValid(c)
    ensures ColumnSize(c) == DefinedSize(d.kind, paddingSize)
  {
    match d.kind
    case UInt32 => IntegerCol(IntegerColumns.IntegerColumn(d.name, false, 32))
    case Int32 => IntegerCol(IntegerColumns.IntegerColumn(d.name, true, 32))
    case Int64 => IntegerCol(IntegerColumns.IntegerColumn(d.name, true, 64))
    case UInt32Vec => ArrayOf(d.name, false, 32, paddingSize)
    case Int32Vec => ArrayOf(d.name, true, 32, paddingSize)
    case Int64Vec => ArrayOf(d.name, true, 64, paddingSize)
  }

  /** The column built for a definition reports the definition's type:
      an integer column for UInt32, Int32 and Int64, otherwise an array
      of paddingSize elements. */
  lemma OtherColumnType(d: Definition, paddingSize: nat)
    requires d.kind != Bit && d.kind != PackedBitField
    ensures OtherColumn(d, paddingSize).IntegerCol? <==> d.kind in {UInt32, Int32, Int64}
    ensures OtherColumn(d, paddingSize).IntegerCol? ==> IntegerColumns.ColumnTypeOf(OtherColumn(d, paddingSize).ic) == Ok(d.kind)
    ensures OtherColumn(d, paddingSize).ArrayCol? ==>
      FixedSizeArrayColumns.ColumnTypeOf(OtherColumn(d, paddingSize).ac) == Ok(d.kind) && OtherColumn(d, paddingSize).ac.length == paddingSize
  {
  }

  function ArrayOf(name: string, signed: bool, width: nat, length: nat): (c: Column)
    requires width == 32 || width == 64
    ensures c.ArrayCol? && c.ac.length == length && c.ac.inner.signed == signed && c.ac.inner.width == width
    ensures FixedSizeArrayColumns.SizeBytes(c.ac) == FixedSizeArrayColumns.Times(width / 8, length)
  {
    ArrayCol(FixedSizeArrayColumns.FixedSizeArrayColumn(name, IntegerColumns.IntegerColumn(name, signed, width), length))
  }

  /** The loop run over all definitions. */
  function Fold(defs: seq<Definition>, paddingSize: nat): Result<Builder>
    decreases |defs|
  {
    if |defs| == 0 then Ok(Builder([], [], 0))
    else
      match Fold(defs[..|defs| - 1], paddingSize)
      case Err(e) => Err(e)
      case Ok(b) => Step(b, defs[|defs| - 1], paddingSize)
  }

  /** After the loop: the Bit columns left over form one more packed
      column. */
  function Finish(b: Builder): seq<Column>
  {
    if |b.bitColumns| > 0 then b.columns + [Packed(b.bytesPacked, b.bitColumns)] else b.columns
  }

  /** The columns the constructor builds, or the error it throws. */
  function Grouped(defs: seq<Definition>, paddingSize: nat): Result<seq<Column>>
  {
    match Fold(defs, paddingSize)
    case Err(e) => Err(e)
    case Ok(b) => Ok(Finish(b))
  }

  /** The constructor. */
  method Build(defs: seq<Definition>, paddingSize: nat) returns (r: Result<RowStructureDefinition>)
    ensures r.Err? <==> Grouped(defs, paddingSize).Err?
    ensures r.Err? ==> r.kind == Grouped(defs, paddingSize).kind
    ensures r.Ok? ==> r.value.columns == Grouped(defs, paddingSize).value
  {
    var columns: seq<Column> := [];
    var bitColumns: seq<string> := [];
    var bytesPacked: nat := 0;
    for i := 0 to |defs|
      invariant Fold(defs[..i], paddingSize) == Ok(Builder(columns, bitColumns, bytesPacked))
    {
      assert defs[..i + 1][..i] == defs[..i];
      var d := defs[i];
      assert Fold(defs[..i + 1], paddingSize) == Step(Builder(columns, bitColumns, bytesPacked), d, paddingSize);
      match d.kind {
        case Bit =>
          if |bitColumns| == PackedBitFields.MaxSubColumns {
            columns := columns + [Packed(bytesPacked, bitColumns)];
            bitColumns := [];
            bytesPacked := bytesPacked + 1;
          }
          bitColumns := bitColumns + [d.name];
          assert [] + [d.name] == [d.name];
        case PackedBitField =>
          FoldErr(defs, paddingSize, i + 1);
          return Err(RuntimeError);
        case _ =>
          columns := columns + [OtherColumn(d, paddingSize)];
      }
    }
    assert defs[..|defs|] == defs;
    if |bitColumns| > 0 {
      columns := columns + [Packed(bytesPacked, bitColumns)];
    }
    return Ok(RowStructureDefinition(columns));
  }

  /** Once a prefix throws, the whole loop throws the same error. */
  lemma {:induction false} FoldErr(defs: seq<Definition>, paddingSize: nat, k: nat)
    requires k <= |defs| && Fold(defs[..k], paddingSize).Err?
    ensures Fold(defs, paddingSize) == Fold(defs[..k], paddingSize)
    decreases |defs| - k
  {
    if k < |defs| {
      assert defs[..|defs| - 1][..k] == defs[..k];
      FoldErr(defs[..|defs| - 1], paddingSize, k);
    } else {
      assert defs[..k] == defs;
    }
  }

  /** The constructor throws exactly when a definition asks for a
      PackedBitField column directly. */
  lemma {:induction false} GroupedErrIff(defs: seq<Definition>, paddingSize: nat)
    ensures Grouped(defs, paddingSize).Err? <==> exists k :: 0 <= k < |defs| && defs[k].kind == PackedBitField
    ensures Grouped(defs, paddingSize).Err? ==> Grouped(defs, paddingSize).kind == RuntimeError
    decreases |defs|
  {
    if |defs| > 0 {
      var front := defs[..|defs| - 1];
      GroupedErrIff(front, paddingSize);
      if exists k :: 0 <= k < |front| && front[k].kind == PackedBitField {
        var k :| 0 <= k < |front| && front[k].kind == PackedBitField;
        assert defs[k] == front[k];
      }
      if exists k :: 0 <= k < |defs| && defs[k].kind == PackedBitField {
        var k :| 0 <= k < |defs| && defs[k].kind == PackedBitField;
        if k < |front| {
          assert front[k] == defs[k];
        }
      }
    }
  }

  /** How many input columns a column stands for: its sub-columns if it
      is packed, otherwise one. */
  function Weight(c: Column): nat
  {
    if c.PackedCol? then |c.pc.subColumnNames| else 1
  }

  /** The input columns the structure expects. */
  function ExpectedColumns(cols: seq<Column>): nat
    decreases |cols|
  {
    if |cols| == 0 then 0 else ExpectedColumns(cols[..|cols| - 1]) + Weight(cols[|cols| - 1])
  }

  /** The names of the packed sub-columns, in order. */
  function PackedNames(cols: seq<Column>): seq<string>
    decreases |cols|
  {
    if |cols| == 0 then []
    else PackedNames(cols[..|cols| - 1]) + (if cols[|cols| - 1].PackedCol? then cols[|cols| - 1].pc.subColumnNames else [])
  }

  /** The names of the Bit definitions, in order. */
  function BitNames(defs: seq<Definition>): seq<string>
    decreases |defs|
  {
    if |defs| == 0 then []
    else BitNames(defs[..|defs| - 1]) + (if defs[|defs| - 1].kind == Bit then [defs[|defs| - 1].name] else [])
  }

  /** The names of the columns that are not packed, in order. */
  function PlainNames(cols: seq<Column>): seq<string>
    decreases |cols|
  {
    if |cols| == 0 then []
    else PlainNames(cols[..|cols| - 1]) + (if cols[|cols| - 1].PackedCol? then [] else [Name(cols[|cols| - 1])])
  }

  /** The names of the definitions that are not Bit, in order. */
  function OtherNames(defs: seq<Definition>): seq<string>
    decreases |defs|
  {
    if |defs| == 0 then []
    else OtherNames(defs[..|defs| - 1]) + (if defs[|defs| - 1].kind == Bit then [] else [defs[|defs| - 1].name])
  }

  /** getColumnName. */
  function Name(c: Column): string
  {
    match c
    case IntegerCol(ic) => ic.name
    case PackedCol(pc) => pc.name
    case ArrayCol(ac) => ac.name
  }

  /** Every packed column holds between 1 and 8 bits. */
  predicate PackedSized(cols: seq<Column>)
  {
    forall k :: 0 <= k < |cols| && cols[k].PackedCol? ==> 1 <= |cols[k].pc.subColumnNames| <= PackedBitFields.MaxSubColumns
  }

  /** What the constructor's loop keeps true: the packed columns so far
      are full; the Bit names are the packed ones followed by the pending
      ones; every definition is counted once. */
  predicate BuilderInv(b: Builder, defs: seq<Definition>)
  {
    && |b.bitColumns| <= PackedBitFields.MaxSubColumns
    && (forall k :: 0 <= k < |b.columns| && b.columns[k].PackedCol? ==> |b.columns[k].pc.subColumnNames| == PackedBitFields.MaxSubColumns)
    && PackedNames(b.columns) + b.bitColumns == BitNames(defs)
    && PlainNames(b.columns) == OtherNames(defs)
    && ExpectedColumns(b.columns) + |b.bitColumns| == |defs|
  }

  lemma Appended(cols: seq<Column>, c: Column)
    ensures ExpectedColumns(cols + [c]) == ExpectedColumns(cols) + Weight(c)
    ensures PackedNames(cols + [c]) == PackedNames(cols) + (if c.PackedCol? then c.pc.subColumnNames else [])
    ensures PlainNames(cols + [c]) == PlainNames(cols) + (if c.PackedCol? then [] else [Name(c)])
  {
    assert (cols + [c])[..|cols|] == cols;
  }

  lemma StepInv(b: Builder, front: seq<Definition>, d: Definition, paddingSize: nat)
    requires BuilderInv(b, front) && Step(b, d, paddingSize).Ok?
    ensures BuilderInv(Step(b, d, paddingSize).value, front + [d])
  {
    assert (front + [d])[..|front|] == front;
    if d.kind == Bit {
      if |b.bitColumns| == PackedBitFields.MaxSubColumns {
        Appended(b.columns, Packed(b.bytesPacked, b.bitColumns));
      }
    } else {
      Appended(b.columns, OtherColumn(d, paddingSize));
    }
  }

  lemma {:induction false} FoldInv(defs: seq<Definition>, paddingSize: nat)
    requires Fold(defs, paddingSize).Ok?
    ensures BuilderInv(Fold(defs, paddingSize).value, defs)
    decreases |defs|
  {
    if |defs| > 0 {
      var front := defs[..|defs| - 1];
      FoldInv(front, paddingSize);
      StepInv(Fold(front, paddingSize).value, front, defs[|defs| - 1], paddingSize);
      assert front + [defs[|defs| - 1]] == defs;
    }
  }

  /** The columns the constructor builds: every packed column holds 1 to
      8 bits (so its own constructor never throws), the packed bits are
      the Bit definitions in order, the other columns are the other
      definitions in order, and the expected input count is the number
      of definitions. */
  lemma {:induction false} GroupedShape(defs: seq<Definition>, paddingSize: nat)
    requires Grouped(defs, paddingSize).Ok?
    ensures PackedSized(Grouped(defs, paddingSize).value)
    ensures PackedNames(Grouped(defs, paddingSize).value) == BitNames(defs)
    ensures PlainNames(Grouped(defs, paddingSize).value) == OtherNames(defs)
    ensures ExpectedColumns(Grouped(defs, paddingSize).value) == |defs|
  {
    FoldInv(defs, paddingSize);
    var b := Fold(defs, paddingSize).value;
    if |b.bitColumns| > 0 {
      var p := Packed(b.bytesPacked, b.bitColumns);
      Appended(b.columns, p);
      var cols := b.columns + [p];
      forall k | 0 <= k < |cols| && cols[k].PackedCol?
        ensures 1 <= |cols[k].pc.subColumnNames| <= PackedBitFields.MaxSubColumns
      {
        if k < |b.columns| {
          assert cols[k] == b.columns[k];
        }
      }
    }
  }

  // ---------------------------------------------------------------------
  // Row size

  /** getColumnSizeBytes of a column. */
  function ColumnSize(c: Column): nat
  {
    match c
    case IntegerCol(ic) => IntegerColumns.SizeBytes(ic)
    case PackedCol(_) => PackedBitFields.SizeBytes
    case ArrayCol(ac) => FixedSizeArrayColumns.SizeBytes(ac)
  }

  /** The sum of the column sizes. */
  function RowSize(cols: seq<Column>): nat
    decreases |cols|
  {
    if |cols| == 0 then 0 else RowSize(cols[..|cols| - 1]) + ColumnSize(cols[|cols| - 1])
  }

  /** getRowSizeBytes. */
  method GetRowSizeBytes(def: RowStructureDefinition) returns (rst: nat)
    ensures rst == RowSize(def.columns)
  {
    rst := 0;
    for i := 0 to |def.columns|
      invariant rst == RowSize(def.columns[..i])
    {
      assert def.columns[..i + 1][..i] == def.columns[..i];
      rst := rst + ColumnSize(def.columns[i]);
    }
    assert def.columns[..|def.columns|] == def.columns;
  }

  /** The bytes a definition of a non-Bit type takes in a row. */
  function DefinedSize(kind: ColumnType, paddingSize: nat): nat
  {
    match kind
    case Int64 => 8
    case UInt32Vec => FixedSizeArrayColumns.Times(4, paddingSize)
    case Int32Vec => FixedSizeArrayColumns.Times(4, paddingSize)
    case Int64Vec => FixedSizeArrayColumns.Times(8, paddingSize)
    case _ => 4
  }

  /** The bytes the non-Bit definitions take. */
  function OtherSize(defs: seq<Definition>, paddingSize: nat): nat
    decreases |defs|
  {
    if |defs| == 0 then 0
    else OtherSize(defs[..|defs| - 1], paddingSize) + (if defs[|defs| - 1].kind == Bit then 0 else DefinedSize(defs[|defs| - 1].kind, paddingSize))
  }

  lemma RowSizeAppended(cols: seq<Column>, c: Column)
    ensures RowSize(cols + [c]) == RowSize(cols) + ColumnSize(c)
  {
    assert (cols + [c])[..|cols|] == cols;
  }

  /** The size facts the constructor's loop keeps. */
  predicate SizeInv(b: Builder, defs: seq<Definition>, paddingSize: nat)
  {
    && RowSize(b.columns) == OtherSize(defs, paddingSize) + b.bytesPacked
    && |BitNames(defs)| == PackedBitFields.MaxSubColumns * b.bytesPacked + |b.bitColumns|
    && (|BitNames(defs)| > 0 ==> |b.bitColumns| > 0)
  }

  lemma StepSize(b: Builder, front: seq<Definition>, d: Definition, paddingSize: nat)
    requires SizeInv(b, front, paddingSize) && Step(b, d, paddingSize).Ok?
    ensures SizeInv(Step(b, d, paddingSize).value, front + [d], paddingSize)
  {
    assert (front + [d])[..|front|] == front;
    if d.kind == Bit {
      if |b.bitColumns| == PackedBitFields.MaxSubColumns {
        RowSizeAppended(b.columns, Packed(b.bytesPacked, b.bitColumns));
      }
    } else {
      RowSizeAppended(b.columns, OtherColumn(d, paddingSize));
    }
  }

  lemma {:induction false} FoldSize(defs: seq<Definition>, paddingSize: nat)
    requires Fold(defs, paddingSize).Ok?
    ensures SizeInv(Fold(defs, paddingSize).value, defs, paddingSize)
    decreases |defs|
  {
    if |defs| > 0 {
      var front := defs[..|defs| - 1];
      FoldSize(front, paddingSize);
      StepSize(Fold(front, paddingSize).value, front, defs[|defs| - 1], paddingSize);
      assert front + [defs[|defs| - 1]] == defs;
    }
  }

  /** The row size of a constructed structure: every non-Bit definition's
      own size, plus one byte per started group of eight Bit
      definitions. */
  lemma RowSizeOfDefinitions(defs: seq<Definition>, paddingSize: nat)
    requires Grouped(defs, paddingSize).Ok?
    ensures RowSize(Grouped(defs, paddingSize).value) == OtherSize(defs, paddingSize) + (|BitNames(defs)| + 7) / 8
  {
    FoldSize(defs, paddingSize);
    FoldInv(defs, paddingSize);
    var b := Fold(defs, paddingSize).value;
    if |b.bitColumns| > 0 {
      RowSizeAppended(b.columns, Packed(b.bytesPacked, b.bitColumns));
    }
  }

  // ---------------------------------------------------------------------
  // Serialisation

  /** A value of the input data map.  Integer vectors carry the native
      type they hold; a Bit column holds one bool per row, and an array
      column one array per row. */
  datatype ColumnData =
    | IntValues(signed: bool, width: nat, ints: seq<int>)
    | BitValues(bits: seq<bool>)
    | ArrayValues(arraySigned: bool, arrayWidth: nat, arrays: seq<seq<int>>)

  /** What the column serialisers need of the columns themselves. */
  predicate ColumnValid(c: Column)
  {
    match c
    case IntegerCol(ic) => IntegerColumns.ValidWidth(ic.width)
    case PackedCol(_) => true
    case ArrayCol(ac) => FixedSizeArrayColumns.Valid(ac)
  }

  predicate Valid(cols: seq<Column>)
  {
    forall k :: 0 <= k < |cols| ==> ColumnValid(cols[k])
  }

  /** The constructed columns have valid widths. */
  lemma GroupedValid(defs: seq<Definition>, paddingSize: nat)
    requires Grouped(defs, paddingSize).Ok?
    ensures Valid(Grouped(defs, paddingSize).value)
  {
    FoldValid(defs, paddingSize);
  }

  lemma {:induction false} FoldValid(defs: seq<Definition>, paddingSize: nat)
    requires Fold(defs, paddingSize).Ok?
    ensures Valid(Fold(defs, paddingSize).value.columns)
    decreases |defs|
  {
    if |defs| > 0 {
      FoldValid(defs[..|defs| - 1], paddingSize);
    }
  }

  /** The array data the source reads through raw pointers: an array
      column that is given the right variant must hold one array of
      exactly its length per row. */
  predicate ArraysShaped(cols: seq<Column>, data: map<string, ColumnData>, numRows: nat)
  {
    forall k :: 0 <= k < |cols| && cols[k].ArrayCol? ==> ArrayShaped(cols[k].ac, data, numRows)
  }

  predicate ArrayShaped(ac: FixedSizeArrayColumns.FixedSizeArrayColumn, data: map<string, ColumnData>, numRows: nat)
  {
    ac.name in data && ArrayVariant(ac, data[ac.name]) ==>
      |data[ac.name].arrays| == numRows && forall k :: 0 <= k < numRows ==> |data[ac.name].arrays[k]| == ac.length
  }

  /** std::get of the vector type the column holds. */
  predicate IntVariant(ic: IntegerColumns.IntegerColumn, d: ColumnData)
  {
    d.IntValues? && d.signed == ic.signed && d.width == ic.width
  }

  predicate ArrayVariant(ac: FixedSizeArrayColumns.FixedSizeArrayColumn, d: ColumnData)
  {
    d.ArrayValues? && d.arraySigned == ac.inner.signed && d.arrayWidth == ac.inner.width
  }

  /** What goes wrong with one Bit sub-column: missing from the map
      (runtime_error), not a bool vector (bad_variant_access, which
      derives from std::exception only; LogicError stands in for it), or
      not one value per row (runtime_error). */
  function SubError(name: string, data: map<string, ColumnData>, numRows: nat): Option<ErrorKind>
  {
    if name !in data then Some(RuntimeError)
    else if !data[name].BitValues? then Some(LogicError)
    else if |data[name].bits| != numRows then Some(RuntimeError)
    else None
  }

  /** The first sub-column that goes wrong decides the error. */
  function PackedError(subs: seq<string>, data: map<string, ColumnData>, numRows: nat): Option<ErrorKind>
    decreases |subs|
  {
    if |subs| == 0 then None
    else
      match PackedError(subs[..|subs| - 1], data, numRows)
      case Some(e) => Some(e)
      case None => SubError(subs[|subs| - 1], data, numRows)
  }

  lemma {:induction false} PackedErrorNone(subs: seq<string>, data: map<string, ColumnData>, numRows: nat)
    ensures PackedError(subs, data, numRows).None? <==> forall i :: 0 <= i < |subs| ==> SubError(subs[i], data, numRows).None?
    decreases |subs|
  {
    if |subs| > 0 {
      var front := subs[..|subs| - 1];
      PackedErrorNone(front, data, numRows);
      assert forall i :: 0 <= i < |front| ==> front[i] == subs[i];
    }
  }

  /** The bit rows the packed column serialises: row j holds sub-column
      i's value of row j at i. */
  function BitPack(pc: PackedBitFields.PackedBitFieldColumn, data: map<string, ColumnData>, numRows: nat): (r: seq<seq<bool>>)
    requires PackedError(pc.subColumnNames, data, numRows).None?
    ensures |r| == numRows
  {
    PackedErrorNone(pc.subColumnNames, data, numRows);
    seq(numRows, j requires 0 <= j < numRows =>
      seq(|pc.subColumnNames|, i requires 0 <= i < |pc.subColumnNames| => data[pc.subColumnNames[i]].bits[j]))
  }

  /** The bytes one row's array takes. */
  function ArrayBytes(ac: FixedSizeArrayColumns.FixedSizeArrayColumn, values: seq<int>): (r: seq<Byte>)
    ensures |values| == ac.length ==> |r| == FixedSizeArrayColumns.SizeBytes(ac)
  {
    FixedSizeArrayColumns.EncodedLength(values, FixedSizeArrayColumns.InnerSize(ac));
    FixedSizeArrayColumns.Encoded(values, FixedSizeArrayColumns.InnerSize(ac))
  }

  /** Every row with its array written at byteOffset. */
  function ArraysWritten(ac: FixedSizeArrayColumns.FixedSizeArrayColumn, rows: seq<seq<Byte>>, byteOffset: nat, arrays: seq<seq<int>>): (r: seq<seq<Byte>>)
    requires |arrays| == |rows| && Fits(rows, byteOffset, FixedSizeArrayColumns.SizeBytes(ac))
    requires forall k :: 0 <= k < |arrays| ==> |arrays[k]| == ac.length
    ensures |r| == |rows| && forall k :: 0 <= k < |rows| ==> |r[k]| == |rows[k]|
  {
    seq(|rows|, k requires 0 <= k < |rows| => WriteAt(rows[k], byteOffset, ArrayBytes(ac, arrays[k])))
  }

  /** One column written into the rows at byteOffset, or the error its
      serialisation throws. */
  function ColumnStep(c: Column, data: map<string, ColumnData>, rows: seq<seq<Byte>>, byteOffset: nat): (r: Result<seq<seq<Byte>>>)
    requires ColumnValid(c) && Fits(rows, byteOffset, ColumnSize(c))
    requires c.ArrayCol? ==> ArrayShaped(c.ac, data, |rows|)
    ensures r.Ok? ==> |r.value| == |rows| && forall k :: 0 <= k < |rows| ==> |r.value[k]| == |rows[k]|
  {
    match c
    case PackedCol(pc) =>
      (match PackedError(pc.subColumnNames, data, |rows|)
       case Some(e) => Err(e)
       case None => Ok(PackedBitFields.Packed(rows, byteOffset, BitPack(pc, data, |rows|))))
    case IntegerCol(ic) =>
      if ic.name !in data then Err(RuntimeError)
      else if !IntVariant(ic, data[ic.name]) then Err(LogicError)
      else if |data[ic.name].ints| != |rows| then Err(RuntimeError)
      else Ok(IntegerColumns.Written(ic, rows, byteOffset, data[ic.name].ints))
    case ArrayCol(ac) =>
      if ac.name !in data then Err(RuntimeError)
      else if !ArrayVariant(ac, data[ac.name]) then Err(LogicError)
      else Ok(ArraysWritten(ac, rows, byteOffset, data[ac.name].arrays))
  }

  /** Every row is `size` bytes long. */
  predicate Shaped(rows: seq<seq<Byte>>, numRows: nat, size: nat)
  {
    |rows| == numRows && forall k :: 0 <= k < |rows| ==> |rows[k]| == size
  }

  lemma RowSizeGrows(cols: seq<Column>, n: nat)
    requires n <= |cols|
    ensures RowSize(cols[..n]) <= RowSize(cols)
    decreases |cols|
  {
    if n < |cols| {
      assert cols[..|cols| - 1][..n] == cols[..n];
      RowSizeGrows(cols[..|cols| - 1], n);
    } else {
      assert cols[..n] == cols;
    }
  }

  /** The columns written one after the other into zeroed rows of `size`
      bytes, each at the sum of the sizes before it. */
  function Applied(cols: seq<Column>, data: map<string, ColumnData>, numRows: nat, size: nat): (r: Result<seq<seq<Byte>>>)
    requires Valid(cols) && ArraysShaped(cols, data, numRows) && RowSize(cols) <= size
    ensures r.Ok? ==> Shaped(r.value, numRows, size)
    decreases |cols|
  {
    if |cols| == 0 then Ok(ZeroRows(numRows, size))
    else
      var front := cols[..|cols| - 1];
      match Applied(front, data, numRows, size)
      case Err(e) => Err(e)
      case Ok(rows) => ColumnStep(cols[|cols| - 1], data, rows, RowSize(front))
  }

  /** serializeDataAsBytesForUDP's result: the column count check, then
      the columns in order. */
  function Serialized(cols: seq<Column>, data: map<string, ColumnData>, numRows: nat): (r: Result<seq<seq<Byte>>>)
    requires Valid(cols) && ArraysShaped(cols, data, numRows)
  {
    if |data| != ExpectedColumns(cols) then Err(RuntimeError)
    else Applied(cols, data, numRows, RowSize(cols))
  }

  /** Once a prefix of the columns throws, serialisation throws that
      error. */
  lemma {:induction false} AppliedErr(cols: seq<Column>, data: map<string, ColumnData>, numRows: nat, size: nat, k: nat)
    requires Valid(cols) && ArraysShaped(cols, data, numRows) && RowSize(cols) <= size
    requires k <= |cols|
    ensures Valid(cols[..k]) && ArraysShaped(cols[..k], data, numRows) && RowSize(cols[..k]) <= size
    ensures Applied(cols[..k], data, numRows, size).Err? ==> Applied(cols, data, numRows, size) == Applied(cols[..k], data, numRows, size)
    decreases |cols| - k
  {
    RowSizeGrows(cols, k);
    if k < |cols| {
      var front := cols[..|cols| - 1];
      assert front[..k] == cols[..k];
      RowSizeGrows(cols, |cols| - 1);
      AppliedErr(front, data, numRows, size, k);
    } else {
      assert cols[..k] == cols;
    }
  }

  /** Applied one column further. */
  lemma AppliedStep(cols: seq<Column>, data: map<string, ColumnData>, numRows: nat, size: nat, i: nat)
    requires Valid(cols) && ArraysShaped(cols, data, numRows) && RowSize(cols) <= size
    requires i < |cols|
    ensures Valid(cols[..i + 1]) && ArraysShaped(cols[..i + 1], data, numRows) && RowSize(cols[..i + 1]) <= size
    ensures RowSize(cols[..i + 1]) == RowSize(cols[..i]) + ColumnSize(cols[i])
    ensures Applied(cols[..i + 1], data, numRows, size) ==
      match Applied(cols[..i], data, numRows, size)
      case Err(e) => Err(e)
      case Ok(rows) => ColumnStep(cols[i], data, rows, RowSize(cols[..i]))
  {
    RowSizeGrows(cols, i + 1);
    assert cols[..i + 1][..i] == cols[..i];
  }

  /** The expected column count loop: a packed column stands for its
      sub-columns, every other column for itself. */
  method CountExpected(def: RowStructureDefinition) returns (expectedColumns: nat)
    ensures expectedColumns == ExpectedColumns(def.columns)
  {
    expectedColumns := 0;
    for i := 0 to |def.columns|
      invariant expectedColumns == ExpectedColumns(def.columns[..i])
    {
      assert def.columns[..i + 1][..i] == def.columns[..i];
      match def.columns[i] {
        case PackedCol(pc) =>
          expectedColumns := expectedColumns + |pc.subColumnNames|;
        case _ =>
          expectedColumns := expectedColumns + 1;
      }
    }
    assert def.columns[..|def.columns|] == def.columns;
  }

  lemma {:induction false} PackedErrorPrefix(subs: seq<string>, data: map<string, ColumnData>, numRows: nat, k: nat)
    requires k <= |subs| && PackedError(subs[..k], data, numRows).Some?
    ensures PackedError(subs, data, numRows) == PackedError(subs[..k], data, numRows)
    decreases |subs| - k
  {
    if k < |subs| {
      assert subs[..|subs| - 1][..k] == subs[..k];
      PackedErrorPrefix(subs[..|subs| - 1], data, numRows, k);
    } else {
      assert subs[..k] == subs;
    }
  }

  /** serializePackedBitFieldColumn: gathers the sub-columns' bits row by
      row, throwing for the first sub-column that is missing, not bools
      or of the wrong length, and then lets the packed column write them
      (once per row, as the source does; every pass writes the same
      bytes). */
  method SerializePackedBitFieldColumn(pc: PackedBitFields.PackedBitFieldColumn, data: map<string, ColumnData>, buffers: WriteBuffers, byteOffset: nat)
    returns (r: Result<()>)
    requires Fits(buffers.rows, byteOffset, PackedBitFields.SizeBytes)
    modifies buffers
    ensures r.Err? <==> PackedError(pc.subColumnNames, data, |old(buffers.rows)|).Some?
    ensures r.Err? ==> r.kind == PackedError(pc.subColumnNames, data, |old(buffers.rows)|).value && buffers.rows == old(buffers.rows)
    ensures r.Ok? ==> buffers.rows == PackedBitFields.Packed(old(buffers.rows), byteOffset, BitPack(pc, data, |old(buffers.rows)|))
  {
    var n := |buffers.rows|;
    var subs := pc.subColumnNames;
    var m := |subs|;
    var bitPack: seq<seq<bool>> := seq(n, _ => seq(m, _ => false));
    for i := 0 to m
      invariant |bitPack| == n && forall j :: 0 <= j < n ==> |bitPack[j]| == m
      invariant forall i' :: 0 <= i' < i ==> SubError(subs[i'], data, n).None?
      invariant forall j, i' :: 0 <= j < n && 0 <= i' < i ==> bitPack[j][i'] == data[subs[i']].bits[j]
    {
      var colName := subs[i];
      var e := SubError(colName, data, n);
      if e.Some? {
        PackedErrorNone(subs[..i], data, n);
        assert subs[..i + 1][..i] == subs[..i];
        PackedErrorPrefix(subs, data, n, i + 1);
        if colName !in data {
          return Err(RuntimeError);
        } else if !data[colName].BitValues? {
          return Err(LogicError);
        } else {
          return Err(RuntimeError);
        }
      }
      var bitVals := data[colName].bits;
      for j := 0 to n
        invariant |bitPack| == n && forall j' :: 0 <= j' < n ==> |bitPack[j']| == m
        invariant forall j', i' :: 0 <= j' < n && 0 <= i' < i ==> bitPack[j'][i'] == data[subs[i']].bits[j']
        invariant forall j' :: 0 <= j' < j ==> bitPack[j'][i] == bitVals[j']
      {
        bitPack := bitPack[j := bitPack[j][i := bitVals[j]]];
      }
    }
    PackedErrorNone(subs, data, n);
    forall j | 0 <= j < n
      ensures bitPack[j] == BitPack(pc, data, n)[j]
    {
    }
    assert bitPack == BitPack(pc, data, n);
    ghost var rows0 := buffers.rows;
    for k := 0 to n
      invariant |buffers.rows| == n && Fits(buffers.rows, byteOffset, PackedBitFields.SizeBytes)
      invariant buffers.rows == if k == 0 then rows0 else PackedBitFields.Packed(rows0, byteOffset, bitPack)
    {
      PackedBitFields.Serialize(bitPack, buffers, byteOffset);
      if k > 0 {
        PackedBitFields.PackedIdempotent(rows0, byteOffset, bitPack);
      }
    }
    if n == 0 {
      assert PackedBitFields.Packed(rows0, byteOffset, bitPack) == rows0;
    }
    return Ok(());
  }

  /** An array column: each row's array written through the array
      column's serialiser at byteOffset. */
  method SerializeArrayColumn(ac: FixedSizeArrayColumns.FixedSizeArrayColumn, arrays: seq<seq<int>>, buffers: WriteBuffers, byteOffset: nat)
    requires FixedSizeArrayColumns.Valid(ac)
    requires |arrays| == |buffers.rows| && Fits(buffers.rows, byteOffset, FixedSizeArrayColumns.SizeBytes(ac))
    requires forall k :: 0 <= k < |arrays| ==> |arrays[k]| == ac.length
    modifies buffers
    ensures buffers.rows == ArraysWritten(ac, old(buffers.rows), byteOffset, arrays)
  {
    ghost var rows0 := buffers.rows;
    var n := |buffers.rows|;
    for k := 0 to n
      invariant |buffers.rows| == |rows0|
      invariant forall k' :: 0 <= k' < k ==> buffers.rows[k'] == ArraysWritten(ac, rows0, byteOffset, arrays)[k']
      invariant forall k' :: k <= k' < |rows0| ==> buffers.rows[k'] == rows0[k']
    {
      var row := FixedSizeArrayColumns.Serialize(ac, arrays[k], buffers.rows[k], byteOffset);
      buffers.rows := buffers.rows[k := row];
    }
  }

  /** One column of serializeDataAsBytesForUDP: a packed column through
      serializePackedBitFieldColumn; any other column throws when its name
      is missing from the map or its value has another type, and is
      otherwise written by its own serialiser. */
  method SerializeColumn(c: Column, data: map<string, ColumnData>, buffers: WriteBuffers, byteOffset: nat) returns (r: Result<()>)
    requires ColumnValid(c) && Fits(buffers.rows, byteOffset, ColumnSize(c))
    requires c.ArrayCol? ==> ArrayShaped(c.ac, data, |buffers.rows|)
    modifies buffers
    ensures r.Err? <==> ColumnStep(c, data, old(buffers.rows), byteOffset).Err?
    ensures r.Err? ==> r.kind == ColumnStep(c, data, old(buffers.rows), byteOffset).kind
    ensures r.Ok? ==> buffers.rows == ColumnStep(c, data, old(buffers.rows), byteOffset).value
  {
    match c {
      case PackedCol(pc) =>
        var res := SerializePackedBitFieldColumn(pc, data, buffers, byteOffset);
        if res.Err? {
          return Err(res.kind);
        }
      case IntegerCol(ic) =>
        if ic.name !in data {
          return Err(RuntimeError);
        }
        match data[ic.name] {
          case IntValues(signed, width, ints) =>
            if signed != ic.signed || width != ic.width {
              return Err(LogicError);
            }
            var res := IntegerColumns.Serialize(ic, ints, buffers, byteOffset);
            if res.Err? {
              return Err(res.kind);
            }
          case _ =>
            return Err(LogicError);
        }
      case ArrayCol(ac) =>
        if ac.name !in data {
          return Err(RuntimeError);
        }
        match data[ac.name] {
          case ArrayValues(signed, width, arrays) =>
            if signed != ac.inner.signed || width != ac.inner.width {
              return Err(LogicError);
            }
            SerializeArrayColumn(ac, arrays, buffers, byteOffset);
          case _ =>
            return Err(LogicError);
        }
    }
    return Ok(());
  }

  /** serializeDataAsBytesForUDP: numRows rows of getRowSizeBytes bytes,
      each column written at the sum of the sizes before it, or the
      error of the column count check or of the first column that
      throws. */
  method SerializeDataAsBytesForUDP(def: RowStructureDefinition, data: map<string, ColumnData>, numRows: nat)
    returns (r: Result<seq<seq<Byte>>>)
    requires Valid(def.columns) && ArraysShaped(def.columns, data, numRows)
    ensures r == Serialized(def.columns, data, numRows)
  {
    var cols := def.columns;
    var expectedColumns := CountExpected(def);
    if |data| != expectedColumns {
      return Err(RuntimeError);
    }
    var size := GetRowSizeBytes(def);
    var byteOffset := 0;
    var buffers := new WriteBuffers(numRows, size);
    assert cols[..0] == [];
    for i := 0 to |cols|
      invariant Valid(cols[..i]) && ArraysShaped(cols[..i], data, numRows) && RowSize(cols[..i]) <= size
      invariant byteOffset == RowSize(cols[..i])
      invariant Applied(cols[..i], data, numRows, size) == Ok(buffers.rows)
    {
      AppliedStep(cols, data, numRows, size, i);
      AppliedErr(cols, data, numRows, size, i + 1);
      var res := SerializeColumn(cols[i], data, buffers, byteOffset);
      if res.Err? {
        return Err(res.kind);
      }
      byteOffset := byteOffset + ColumnSize(cols[i]);
    }
    assert cols[..|cols|] == cols;
    return Ok(buffers.rows);
  }

  // ---------------------------------------------------------------------
  // Bits to bytes, and the transpose

  /** convertFromBits: the bits eight at a time, bit 0 first, the last
      byte holding what is left. */
  function FromBits(bits: seq<bool>): seq<Byte>
    decreases |bits|
  {
    if |bits| == 0 then []
    else
      var k := if |bits| < 8 then |bits| else 8;
      [PackedBitFields.PackedByte(bits[..k])] + FromBits(bits[k..])
  }

  /** The eight bits of a byte, bit 0 first. */
  function ByteBits(b: Byte): (r: seq<bool>)
    ensures |r| == 8
  {
    seq(8, j requires 0 <= j < 8 => Common.Bit(b, j))
  }

  /** Bytes spelled out as bits, eight per byte. */
  function ToBits(bytes: seq<Byte>): (r: seq<bool>)
    ensures |r| == 8 * |bytes|
    decreases |bytes|
  {
    if |bytes| == 0 then [] else ByteBits(bytes[0]) + ToBits(bytes[1..])
  }

  /** convertFromBits, as the source loops: bitsLeft bits ORed into each
      byte. */
  method ConvertFromBits(data: seq<bool>) returns (rst: seq<Byte>)
    ensures rst == FromBits(data)
  {
    rst := [];
    var i := 0;
    while i < |data|
      invariant 0 <= i <= |data|
      invariant rst + FromBits(data[i..]) == FromBits(data)
      decreases |data| - i
    {
      var bitsLeft := if |data| - i > 8 then 8 else |data| - i;
      var val := PackedBitFields.PackBits(data[i..i + bitsLeft]);
      assert data[i..][..bitsLeft] == data[i..i + bitsLeft];
      assert data[i..][bitsLeft..] == data[i + bitsLeft..];
      rst := rst + [val];
      i := i + bitsLeft;
    }
  }

  /** There are as many bytes as started groups of eight bits. */
  lemma {:induction false} FromBitsLength(bits: seq<bool>)
    ensures |FromBits(bits)| == (|bits| + 7) / 8
    decreases |bits|
  {
    if |bits| > 0 {
      var k := if |bits| < 8 then |bits| else 8;
      FromBitsLength(bits[k..]);
    }
  }

  /** A value below 2^k has no bit at k or above. */
  lemma HighBitClear(x: nat, k: nat, j: nat)
    requires x < Pow2(k) && k <= j
    ensures !Common.Bit(x, j)
  {
    Pow2Monotone(k, j);
    DivZero(x, Pow2(j));
  }

  /** Bit j of byte b is bit 8b + j of the input, and zero past its end. */
  lemma {:induction false} FromBitsAt(bits: seq<bool>, b: nat, j: nat)
    requires b < |FromBits(bits)| && j < 8
    ensures Common.Bit(FromBits(bits)[b], j) == (8 * b + j < |bits| && bits[8 * b + j])
    decreases b
  {
    var k := if |bits| < 8 then |bits| else 8;
    var low := bits[..k];
    if b == 0 {
      if j < k {
        PackedBitFields.UnpackPacked(low, j);
      } else {
        BitsToNatBound(low);
        HighBitClear(PackedBitFields.PackedByte(low), k, j);
      }
    } else {
      FromBitsAt(bits[k..], b - 1, j);
    }
  }

  /** Turning bytes into bits and back gives the bytes. */
  lemma {:induction false} FromBitsToBits(bytes: seq<Byte>)
    ensures FromBits(ToBits(bytes)) == bytes
    decreases |bytes|
  {
    if |bytes| > 0 {
      var bits := ToBits(bytes);
      assert bits[..8] == ByteBits(bytes[0]);
      assert bits[8..] == ToBits(bytes[1..]);
      PackedBitFields.PackUnpacked(bytes[0]);
      FromBitsToBits(bytes[1..]);
    }
  }

  /** What transpose reads: every row is at least as long as the first. */
  predicate Rectangular(data: seq<seq<bool>>)
  {
    |data| == 0 || forall r :: 0 <= r < |data| ==> |data[0]| <= |data[r]|
  }

  /** transpose: column c of the input becomes row c; empty input gives
      empty output. */
  function Transposed(data: seq<seq<bool>>): (result: seq<seq<bool>>)
    requires Rectangular(data)
  {
    if |data| == 0 then []
    else seq(|data[0]|, c requires 0 <= c < |data[0]| => seq(|data|, r requires 0 <= r < |data| => data[r][c]))
  }

  /** The transpose's loops. */
  method Transpose(data: seq<seq<bool>>) returns (result: seq<seq<bool>>)
    requires Rectangular(data)
    ensures result == Transposed(data)
    ensures |data| == 0 ==> result == []
    ensures |data| > 0 ==> |result| == |data[0]|
    ensures forall c, r :: 0 <= c < |result| && 0 <= r < |data| ==> |result[c]| == |data| && result[c][r] == data[r][c]
  {
    result := [];
    if |data| == 0 {
      return;
    }
    for column := 0 to |data[0]|
      invariant |result| == column
      invariant forall c :: 0 <= c < column ==> result[c] == Transposed(data)[c]
    {
      result := result + [seq(|data|, _ => false)];
      for row := 0 to |data|
        invariant |result| == column + 1 && |result[column]| == |data|
        invariant forall c :: 0 <= c < column ==> result[c] == Transposed(data)[c]
        invariant forall r :: 0 <= r < row ==> result[column][r] == data[r][column]
      {
        result := result[column := result[column][row := data[row][column]]];
      }
    }
  }

  /** Transposing a non-empty rectangle twice gives it back. */
  lemma TransposeTwice(data: seq<seq<bool>>)
    requires |data| > 0 && |data[0]| > 0
    requires forall r :: 0 <= r < |data| ==> |data[r]| == |data[0]|
    ensures Rectangular(Transposed(data)) && Transposed(Transposed(data)) == data
  {
    var t := Transposed(data);
    var tt := Transposed(t);
    forall r | 0 <= r < |data|
      ensures tt[r] == data[r]
    {
    }
  }

  // ---------------------------------------------------------------------
  // What serialisation writes

  /** A column's data passes every check its serialiser makes. */
  predicate Accepted(c: Column, data: map<string, ColumnData>, numRows: nat)
  {
    match c
    case PackedCol(pc) => PackedError(pc.subColumnNames, data, numRows).None?
    case IntegerCol(ic) => ic.name in data && IntVariant(ic, data[ic.name]) && |data[ic.name].ints| == numRows
    case ArrayCol(ac) => ac.name in data && ArrayVariant(ac, data[ac.name])
  }

  /** Every column's data passes. */
  predicate AllAccepted(cols: seq<Column>, data: map<string, ColumnData>, numRows: nat)
  {
    forall k :: 0 <= k < |cols| ==> Accepted(cols[k], data, numRows)
  }

  /** The bytes a column writes into row j. */
  function ColumnBytes(c: Column, data: map<string, ColumnData>, numRows: nat, j: nat): (r: seq<Byte>)
    requires Accepted(c, data, numRows) && j < numRows
    requires c.ArrayCol? ==> ArrayShaped(c.ac, data, numRows)
    ensures |r| == ColumnSize(c)
  {
    match c
    case PackedCol(pc) => [PackedBitFields.PackedByte(BitPack(pc, data, numRows)[j])]
    case IntegerCol(ic) => IntegerColumns.LittleEndian(data[ic.name].ints[j], IntegerColumns.SizeBytes(ic))
    case ArrayCol(ac) => ArrayBytes(ac, data[ac.name].arrays[j])
  }

  lemma UpdateIsWriteAt(row: seq<Byte>, offset: nat, x: Byte)
    requires offset < |row|
    ensures row[offset := x] == WriteAt(row, offset, [x])
  {
    var w := WriteAt(row, offset, [x]);
    forall k | 0 <= k < |row|
      ensures w[k] == row[offset := x][k]
    {
      if k == offset {
        assert w[offset..offset + 1] == [x];
      }
    }
  }

  /** A column's step succeeds exactly when its data passes its checks,
      and then writes its bytes at byteOffset into every row. */
  lemma ColumnStepOk(c: Column, data: map<string, ColumnData>, rows: seq<seq<Byte>>, byteOffset: nat)
    requires ColumnValid(c) && Fits(rows, byteOffset, ColumnSize(c))
    requires c.ArrayCol? ==> ArrayShaped(c.ac, data, |rows|)
    ensures ColumnStep(c, data, rows, byteOffset).Ok? <==> Accepted(c, data, |rows|)
    ensures ColumnStep(c, data, rows, byteOffset).Ok? ==>
      forall j :: 0 <= j < |rows| ==> ColumnStep(c, data, rows, byteOffset).value[j] == WriteAt(rows[j], byteOffset, ColumnBytes(c, data, |rows|, j))
  {
    if c.PackedCol? && Accepted(c, data, |rows|) {
      forall j | 0 <= j < |rows|
        ensures ColumnStep(c, data, rows, byteOffset).value[j] == WriteAt(rows[j], byteOffset, ColumnBytes(c, data, |rows|, j))
      {
        UpdateIsWriteAt(rows[j], byteOffset, PackedBitFields.PackedByte(BitPack(c.pc, data, |rows|)[j]));
      }
    }
  }

  function Zeros(n: nat): seq<Byte>
  {
    seq(n, _ => 0)
  }

  /** Row j's bytes: every column's bytes, one after the other. */
  function RowBytes(cols: seq<Column>, data: map<string, ColumnData>, numRows: nat, j: nat): (r: seq<Byte>)
    requires AllAccepted(cols, data, numRows) && ArraysShaped(cols, data, numRows) && j < numRows
    ensures |r| == RowSize(cols)
    decreases |cols|
  {
    if |cols| == 0 then []
    else
      var front := cols[..|cols| - 1];
      assert forall k :: 0 <= k < |front| ==> front[k] == cols[k];
      RowBytes(front, data, numRows, j) + ColumnBytes(cols[|cols| - 1], data, numRows, j)
  }

  /** The columns applied to zeroed rows: every row is the columns' bytes
      followed by the zeros no column wrote. */
  lemma AppliedRows(cols: seq<Column>, data: map<string, ColumnData>, numRows: nat, size: nat)
    requires Valid(cols) && ArraysShaped(cols, data, numRows) && RowSize(cols) <= size
    ensures Applied(cols, data, numRows, size).Ok? <==> AllAccepted(cols, data, numRows)
    ensures Applied(cols, data, numRows, size).Ok? ==>
      forall j :: 0 <= j < numRows ==> Applied(cols, data, numRows, size).value[j] == RowBytes(cols, data, numRows, j) + Zeros(size - RowSize(cols))
  {
    AppliedOk(cols, data, numRows, size);
    if AllAccepted(cols, data, numRows) {
      AppliedValues(cols, data, numRows, size);
    }
  }

  /** Applying the columns succeeds exactly when every column's data
      passes. */
  lemma {:induction false} AppliedOk(cols: seq<Column>, data: map<string, ColumnData>, numRows: nat, size: nat)
    requires Valid(cols) && ArraysShaped(cols, data, numRows) && RowSize(cols) <= size
    ensures Applied(cols, data, numRows, size).Ok? <==> AllAccepted(cols, data, numRows)
    decreases |cols|
  {
    if |cols| > 0 {
      var front := cols[..|cols| - 1];
      var c := cols[|cols| - 1];
      assert forall k :: 0 <= k < |front| ==> front[k] == cols[k];
      RowSizeGrows(cols, |cols| - 1);
      AppliedOk(front, data, numRows, size);
      var prior := Applied(front, data, numRows, size);
      if prior.Ok? {
        ColumnStepOk(c, data, prior.value, RowSize(front));
      }
    }
  }

  /** With every column's data accepted, each row holds the columns' bytes
      and then zeros. */
  lemma AppliedValues(cols: seq<Column>, data: map<string, ColumnData>, numRows: nat, size: nat)
    requires Valid(cols) && ArraysShaped(cols, data, numRows) && RowSize(cols) <= size
    requires AllAccepted(cols, data, numRows)
    ensures Applied(cols, data, numRows, size).Ok?
    ensures forall j :: 0 <= j < numRows ==>
      Applied(cols, data, numRows, size).value[j] == RowBytes(cols, data, numRows, j) + Zeros(size - RowSize(cols))
  {
    AppliedOk(cols, data, numRows, size);
    forall j | 0 <= j < numRows
      ensures Applied(cols, data, numRows, size).value[j] == RowBytes(cols, data, numRows, j) + Zeros(size - RowSize(cols))
    {
      AppliedRowAt(cols, data, numRows, size, j);
    }
  }

  /** Row j after applying accepted columns: their bytes, then zeros. */
  lemma AppliedRowAt(cols: seq<Column>, data: map<string, ColumnData>, numRows: nat, size: nat, j: nat)
    requires Valid(cols) && ArraysShaped(cols, data, numRows) && RowSize(cols) <= size
    requires AllAccepted(cols, data, numRows) && j < numRows
    ensures Applied(cols, data, numRows, size).Ok?
    ensures Applied(cols, data, numRows, size).value[j] == RowBytes(cols, data, numRows, j) + Zeros(size - RowSize(cols))
  {
    AppliedRowIs(cols, data, numRows, size, j);
    AppliedRowBytes(cols, data, numRows, size, j);
  }

  /** Row j built one column at a time: a zero row, then each column's
      bytes written at that column's offset. */
  function AppliedRow(cols: seq<Column>, data: map<string, ColumnData>, numRows: nat, size: nat, j: nat): (r: seq<Byte>)
    requires AllAccepted(cols, data, numRows) && ArraysShaped(cols, data, numRows) && RowSize(cols) <= size && j < numRows
    ensures |r| == size
    decreases |cols|
  {
    if |cols| == 0 then Zeros(size)
    else
      var front := cols[..|cols| - 1];
      PrefixAccepted(cols, data, numRows, |cols| - 1);
      WriteAt(AppliedRow(front, data, numRows, size, j), RowSize(front), ColumnBytes(cols[|cols| - 1], data, numRows, j))
  }

  /** Applying accepted columns succeeds, and row j of the result is the
      row built column by column. */
  lemma {:induction false} AppliedRowIs(cols: seq<Column>, data: map<string, ColumnData>, numRows: nat, size: nat, j: nat)
    requires Valid(cols) && ArraysShaped(cols, data, numRows) && RowSize(cols) <= size
    requires AllAccepted(cols, data, numRows) && j < numRows
    ensures Applied(cols, data, numRows, size).Ok?
    ensures Applied(cols, data, numRows, size).value[j] == AppliedRow(cols, data, numRows, size, j)
    decreases |cols|
  {
    if |cols| == 0 {
      assert Applied(cols, data, numRows, size).value == ZeroRows(numRows, size);
    } else {
      AppliedLastRow(cols, data, numRows, size, j);
      PrefixAccepted(cols, data, numRows, |cols| - 1);
      AppliedRowIs(cols[..|cols| - 1], data, numRows, size, j);
    }
  }

  /** The row built column by column is the columns' bytes, then zeros. */
  lemma AppliedRowBytes(cols: seq<Column>, data: map<string, ColumnData>, numRows: nat, size: nat, j: nat)
    requires AllAccepted(cols, data, numRows) && ArraysShaped(cols, data, numRows) && RowSize(cols) <= size && j < numRows
    ensures AppliedRow(cols, data, numRows, size, j) == RowBytes(cols, data, numRows, j) + Zeros(size - RowSize(cols))
  {
    var row := AppliedRow(cols, data, numRows, size, j);
    var bytes := RowBytes(cols, data, numRows, j);
    forall k | 0 <= k < size
      ensures row[k] == if k < |bytes| then bytes[k] else 0
    {
      AppliedRowByte(cols, data, numRows, size, j, k);
    }
    BytesThenZeros(row, bytes);
  }

  /** A row whose every byte is the given bytes' byte, or zero past them,
      is those bytes followed by zeros. */
  lemma BytesThenZeros(row: seq<Byte>, bytes: seq<Byte>)
    requires |bytes| <= |row|
    requires forall k :: 0 <= k < |row| ==> row[k] == if k < |bytes| then bytes[k] else 0
    ensures row == bytes + Zeros(|row| - |bytes|)
  {
  }

  /** Byte k of the row built column by column: the columns' byte there,
      or zero past the columns. */
  lemma {:induction false} AppliedRowByte(cols: seq<Column>, data: map<string, ColumnData>, numRows: nat, size: nat, j: nat, k: nat)
    requires AllAccepted(cols, data, numRows) && ArraysShaped(cols, data, numRows) && RowSize(cols) <= size && j < numRows
    requires k < size
    ensures AppliedRow(cols, data, numRows, size, j)[k] == if k < RowSize(cols) then RowBytes(cols, data, numRows, j)[k] else 0
    decreases |cols|
  {
    if |cols| > 0 {
      var front := cols[..|cols| - 1];
      AppliedRowUnfold(cols, data, numRows, size, j);
      RowBytesSplit(cols, data, numRows, j);
      AppliedRowByte(front, data, numRows, size, j, k);
      ByteAfterColumn(AppliedRow(front, data, numRows, size, j), RowBytes(front, data, numRows, j),
                      ColumnBytes(cols[|cols| - 1], data, numRows, j), k);
    }
  }

  /** One column's step on byte k: a row holding the earlier columns'
      bytes and then zeros, with the next column's bytes written right
      after them, holds all the bytes and then zeros. */
  lemma ByteAfterColumn(prev: seq<Byte>, a: seq<Byte>, b: seq<Byte>, k: nat)
    requires |a| + |b| <= |prev| && k < |prev|
    requires prev[k] == if k < |a| then a[k] else 0
    ensures WriteAt(prev, |a|, b)[k] == if k < |a + b| then (a + b)[k] else 0
  {
    WriteAtByte(prev, |a|, b, k);
  }

  /** Byte k after writing b at off: b's byte inside the write, the old
      byte outside it. */
  lemma WriteAtByte(row: seq<Byte>, off: nat, b: seq<Byte>, k: nat)
    requires off + |b| <= |row| && k < |row|
    ensures WriteAt(row, off, b)[k] == if off <= k < off + |b| then b[k - off] else row[k]
  {
    if off <= k < off + |b| {
      assert WriteAt(row, off, b)[off..off + |b|][k - off] == WriteAt(row, off, b)[k];
    }
  }

  /** One step of AppliedRow: the last column's bytes written over the
      row of the columns before it. */
  lemma AppliedRowUnfold(cols: seq<Column>, data: map<string, ColumnData>, numRows: nat, size: nat, j: nat)
    requires AllAccepted(cols, data, numRows) && ArraysShaped(cols, data, numRows) && RowSize(cols) <= size && j < numRows
    requires |cols| > 0
    ensures AllAccepted(cols[..|cols| - 1], data, numRows) && ArraysShaped(cols[..|cols| - 1], data, numRows)
    ensures RowSize(cols[..|cols| - 1]) <= size
    ensures AppliedRow(cols, data, numRows, size, j) ==
      WriteAt(AppliedRow(cols[..|cols| - 1], data, numRows, size, j), RowSize(cols[..|cols| - 1]), ColumnBytes(cols[|cols| - 1], data, numRows, j))
  {
    PrefixAccepted(cols, data, numRows, |cols| - 1);
  }

  /** The last accepted column writes its bytes into each row the
      columns before it produced. */
  lemma AppliedLastRow(cols: seq<Column>, data: map<string, ColumnData>, numRows: nat, size: nat, j: nat)
    requires Valid(cols) && ArraysShaped(cols, data, numRows) && RowSize(cols) <= size
    requires AllAccepted(cols, data, numRows) && 0 < |cols| && j < numRows
    ensures Valid(cols[..|cols| - 1]) && ArraysShaped(cols[..|cols| - 1], data, numRows)
    ensures RowSize(cols[..|cols| - 1]) <= size
    ensures Applied(cols[..|cols| - 1], data, numRows, size).Ok? && Applied(cols, data, numRows, size).Ok?
    ensures Applied(cols, data, numRows, size).value[j] ==
      WriteAt(Applied(cols[..|cols| - 1], data, numRows, size).value[j], RowSize(cols[..|cols| - 1]), ColumnBytes(cols[|cols| - 1], data, numRows, j))
  {
    var front := cols[..|cols| - 1];
    assert forall k :: 0 <= k < |front| ==> front[k] == cols[k];
    PrefixAccepted(cols, data, numRows, |cols| - 1);
    RowSizeGrows(cols, |cols| - 1);
    AppliedOk(front, data, numRows, size);
    ColumnStepOk(cols[|cols| - 1], data, Applied(front, data, numRows, size).value, RowSize(front));
  }

  /** serializeDataAsBytesForUDP succeeds exactly when the map holds as
      many columns as the structure expects and every column's data
      passes its checks; then row j is the bytes of the columns in
      order, each as its serialiser writes it. */
  lemma SerializedRows(cols: seq<Column>, data: map<string, ColumnData>, numRows: nat)
    requires Valid(cols) && ArraysShaped(cols, data, numRows)
    ensures Serialized(cols, data, numRows).Ok? <==> |data| == ExpectedColumns(cols) && AllAccepted(cols, data, numRows)
    ensures Serialized(cols, data, numRows).Ok? ==>
      |Serialized(cols, data, numRows).value| == numRows &&
      forall j :: 0 <= j < numRows ==> Serialized(cols, data, numRows).value[j] == RowBytes(cols, data, numRows, j)
  {
    AppliedRows(cols, data, numRows, RowSize(cols));
    if Serialized(cols, data, numRows).Ok? {
      forall j | 0 <= j < numRows
        ensures Serialized(cols, data, numRows).value[j] == RowBytes(cols, data, numRows, j)
      {
        assert RowBytes(cols, data, numRows, j) + Zeros(0) == RowBytes(cols, data, numRows, j);
      }
    }
  }

  // ---------------------------------------------------------------------
  // Deserialisation

  /** The names a column's values come back under: its sub-columns if it
      is packed, otherwise its own. */
  function ColumnNames(c: Column): seq<string>
  {
    if c.PackedCol? then c.pc.subColumnNames else [Name(c)]
  }

  /** The names of all columns' values, in order. */
  function EntryNames(cols: seq<Column>): seq<string>
    decreases |cols|
  {
    if |cols| == 0 then [] else EntryNames(cols[..|cols| - 1]) + ColumnNames(cols[|cols| - 1])
  }

  /** The values one column reads back from the shares at byteOffset,
      with their names: the integers of each row, each sub-column's bits,
      or the array's elements, each across the rows. */
  function Entries(c: Column, shares: seq<seq<Byte>>, byteOffset: nat): (r: seq<(string, ColumnData)>)
    requires ColumnValid(c) && Fits(shares, byteOffset, ColumnSize(c))
    ensures |r| == |ColumnNames(c)| && forall i :: 0 <= i < |r| ==> r[i].0 == ColumnNames(c)[i]
  {
    match c
    case IntegerCol(ic) => [(ic.name, IntValues(ic.signed, ic.width, IntegerColumns.Decoded(ic, shares, byteOffset)))]
    case PackedCol(pc) =>
      var bits := PackedBitFields.Unpacked(pc, shares, byteOffset);
      seq(|pc.subColumnNames|, i requires 0 <= i < |pc.subColumnNames| => (pc.subColumnNames[i], BitValues(bits[i])))
    case ArrayCol(ac) => [(ac.name, ArrayValues(ac.inner.signed, ac.inner.width, FixedSizeArrayColumns.Decoded(ac, shares, byteOffset)))]
  }

  /** unordered_map::emplace: a key already present keeps its value. */
  function Emplace(m: map<string, ColumnData>, e: (string, ColumnData)): map<string, ColumnData>
  {
    if e.0 in m then m else m[e.0 := e.1]
  }

  function EmplaceAll(m: map<string, ColumnData>, es: seq<(string, ColumnData)>): map<string, ColumnData>
    decreases |es|
  {
    if |es| == 0 then m else Emplace(EmplaceAll(m, es[..|es| - 1]), es[|es| - 1])
  }

  /** deserializeUDPOutputIntoMPCTypes, from the bytes on: every column's
      values emplaced in column order, each column read at the sum of the
      sizes before it. */
  function Deserialized(cols: seq<Column>, shares: seq<seq<Byte>>): map<string, ColumnData>
    requires Valid(cols) && Fits(shares, 0, RowSize(cols))
    decreases |cols|
  {
    if |cols| == 0 then map[]
    else
      var front := cols[..|cols| - 1];
      RowSizeGrows(cols, |cols| - 1);
      assert Valid(front);
      EmplaceAll(Deserialized(front, shares), Entries(cols[|cols| - 1], shares, RowSize(front)))
  }

  /** The bytes each party holds: the shared bits transposed into one bit
      string per row, each turned into bytes. */
  function SharedBytes(secretSharedBits: seq<seq<bool>>): seq<seq<Byte>>
    requires Rectangular(secretSharedBits)
  {
    var t := Transposed(secretSharedBits);
    seq(|t|, i requires 0 <= i < |t| => FromBits(t[i]))
  }

  /** The bit-per-row layout of rows of bytes: entry [b][j] is bit b of
      row j, as the MPC engine hands serialised rows back. */
  function BitColumns(rows: seq<seq<Byte>>): (r: seq<seq<bool>>)
    requires |rows| > 0 && forall j :: 0 <= j < |rows| ==> |rows[j]| == |rows[0]|
    ensures Rectangular(r)
  {
    var perRow := seq(|rows|, j requires 0 <= j < |rows| => ToBits(rows[j]));
    Transposed(perRow)
  }

  /** Turning rows of bytes into bits per row, transposing, and
      converting back gives the rows again. */
  lemma SharedBytesOfRows(rows: seq<seq<Byte>>)
    requires |rows| > 0 && |rows[0]| > 0
    requires forall j :: 0 <= j < |rows| ==> |rows[j]| == |rows[0]|
    ensures SharedBytes(BitColumns(rows)) == rows
  {
    var perRow := seq(|rows|, j requires 0 <= j < |rows| => ToBits(rows[j]));
    TransposeTwice(perRow);
    var t := Transposed(BitColumns(rows));
    assert t == perRow;
    forall j | 0 <= j < |rows|
      ensures SharedBytes(BitColumns(rows))[j] == rows[j]
    {
      FromBitsToBits(rows[j]);
    }
  }

  /** Deserialising one column further adds that column's entries. */
  lemma DeserializedStep(cols: seq<Column>, shares: seq<seq<Byte>>, i: nat)
    requires Valid(cols) && Fits(shares, 0, RowSize(cols)) && i < |cols|
    ensures Valid(cols[..i]) && Valid(cols[..i + 1])
    ensures RowSize(cols[..i + 1]) == RowSize(cols[..i]) + ColumnSize(cols[i]) <= RowSize(cols)
    ensures Fits(shares, RowSize(cols[..i]), ColumnSize(cols[i]))
    ensures Deserialized(cols[..i + 1], shares) == EmplaceAll(Deserialized(cols[..i], shares), Entries(cols[i], shares, RowSize(cols[..i])))
  {
    RowSizeGrows(cols, i + 1);
    assert cols[..i + 1][..i] == cols[..i];
  }

  method DeserializeColumn(c: Column, shares: seq<seq<Byte>>, byteOffset: nat, rst: map<string, ColumnData>)
    returns (out: map<string, ColumnData>)
    requires ColumnValid(c) && Fits(shares, byteOffset, ColumnSize(c))
    ensures out == EmplaceAll(rst, Entries(c, shares, byteOffset))
  {
    var es := Entries(c, shares, byteOffset);
    match c {
      case PackedCol(pc) =>
        var deserializedMPCValues := PackedBitFields.Deserialize(pc, shares, byteOffset);
        out := rst;
        for i := 0 to |pc.subColumnNames|
          invariant out == EmplaceAll(rst, es[..i])
        {
          assert es[..i + 1][..i] == es[..i];
          out := Emplace(out, (pc.subColumnNames[i], BitValues(deserializedMPCValues[i])));
        }
        assert es[..|es|] == es;
      case IntegerCol(ic) =>
        var values := IntegerColumns.DeserializeShares(ic, shares, byteOffset);
        out := Emplace(rst, (ic.name, IntValues(ic.signed, ic.width, values)));
        assert es[..0] == [];
      case ArrayCol(ac) =>
        var values := FixedSizeArrayColumns.Deserialize(ac, shares, byteOffset);
        out := Emplace(rst, (ac.name, ArrayValues(ac.inner.signed, ac.inner.width, values)));
        assert es[..0] == [];
    }
  }

  /** The column loop of deserializeUDPOutputIntoMPCTypes. */
  method DeserializeColumns(def: RowStructureDefinition, shares: seq<seq<Byte>>) returns (rst: map<string, ColumnData>)
    requires Valid(def.columns) && Fits(shares, 0, RowSize(def.columns))
    ensures rst == Deserialized(def.columns, shares)
  {
    var cols := def.columns;
    rst := map[];
    var byteOffset := 0;
    assert cols[..0] == [];
    for i := 0 to |cols|
      invariant Valid(cols[..i]) && RowSize(cols[..i]) <= RowSize(cols)
      invariant byteOffset == RowSize(cols[..i])
      invariant rst == Deserialized(cols[..i], shares)
    {
      DeserializedStep(cols, shares, i);
      rst := DeserializeColumn(cols[i], shares, byteOffset, rst);
      byteOffset := byteOffset + ColumnSize(cols[i]);
    }
    assert cols[..|cols|] == cols;
  }

  /** deserializeUDPOutputIntoMPCTypes: the party's share of the secret
      string, one bit string per bit position across the rows, is
      transposed to one bit string per row, turned into bytes, and read
      column by column.  The source indexes the bytes without a check, so
      every row must hold a whole row of bytes. */
  method DeserializeUDPOutputIntoMPCTypes(def: RowStructureDefinition, secretSharedBits: seq<seq<bool>>)
    returns (rst: map<string, ColumnData>)
    requires Valid(def.columns) && Rectangular(secretSharedBits)
    requires Fits(SharedBytes(secretSharedBits), 0, RowSize(def.columns))
    ensures rst == Deserialized(def.columns, SharedBytes(secretSharedBits))
  {
    var bits := Transpose(secretSharedBits);
    var secretSharedBytes: seq<seq<Byte>> := [];
    for i := 0 to |bits|
      invariant secretSharedBytes == SharedBytes(secretSharedBits)[..i]
    {
      var bytes := ConvertFromBits(bits[i]);
      secretSharedBytes := secretSharedBytes + [bytes];
    }
    assert secretSharedBytes == SharedBytes(secretSharedBits);
    rst := DeserializeColumns(def, secretSharedBytes);
  }

  // ---------------------------------------------------------------------
  // Reading back what was written

  predicate Distinct(names: seq<string>)
  {
    forall a, b :: 0 <= a < b < |names| ==> names[a] != names[b]
  }

  lemma DistinctSplit(a: seq<string>, b: seq<string>)
    requires Distinct(a + b)
    ensures Distinct(a) && Distinct(b)
    ensures forall x, y :: 0 <= x < |a| && 0 <= y < |b| ==> a[x] != b[y]
  {
    forall x, y | 0 <= x < |a| && 0 <= y < |b|
      ensures a[x] != b[y]
    {
      assert (a + b)[x] == a[x] && (a + b)[|a| + y] == b[y];
    }
    forall x, y | 0 <= x < y < |b|
      ensures b[x] != b[y]
    {
      assert (a + b)[|a| + x] == b[x] && (a + b)[|a| + y] == b[y];
    }
    forall x, y | 0 <= x < y < |a|
      ensures a[x] != a[y]
    {
      assert (a + b)[x] == a[x] && (a + b)[y] == a[y];
    }
  }

  /** Emplacing never changes a key that is already there. */
  lemma {:induction false} EmplaceAllKeeps(m: map<string, ColumnData>, es: seq<(string, ColumnData)>, x: string)
    requires x in m
    ensures x in EmplaceAll(m, es) && EmplaceAll(m, es)[x] == m[x]
    decreases |es|
  {
    if |es| > 0 {
      EmplaceAllKeeps(m, es[..|es| - 1], x);
    }
  }

  /** The keys after emplacing: the old ones and the names emplaced. */
  lemma {:induction false} EmplaceAllKeys(m: map<string, ColumnData>, es: seq<(string, ColumnData)>, x: string)
    ensures x in EmplaceAll(m, es) <==> x in m || exists i :: 0 <= i < |es| && es[i].0 == x
    decreases |es|
  {
    if |es| > 0 {
      var front := es[..|es| - 1];
      EmplaceAllKeys(m, front, x);
      if exists i :: 0 <= i < |front| && front[i].0 == x {
        var i :| 0 <= i < |front| && front[i].0 == x;
        assert es[i].0 == x;
      }
      if exists i :: 0 <= i < |es| && es[i].0 == x {
        var i :| 0 <= i < |es| && es[i].0 == x;
        if i < |front| {
          assert front[i].0 == x;
        }
      }
    }
  }

  /** Emplacing new, distinct names stores each one's value. */
  lemma {:induction false} EmplaceAllFresh(m: map<string, ColumnData>, es: seq<(string, ColumnData)>, i: nat)
    requires i < |es|
    requires forall a, b :: 0 <= a < b < |es| ==> es[a].0 != es[b].0
    requires forall a :: 0 <= a < |es| ==> es[a].0 !in m
    ensures es[i].0 in EmplaceAll(m, es) && EmplaceAll(m, es)[es[i].0] == es[i].1
    decreases |es|
  {
    var front := es[..|es| - 1];
    if i < |front| {
      EmplaceAllFresh(m, front, i);
    } else {
      EmplaceAllKeys(m, front, es[i].0);
    }
  }

  /** The keys read back are the columns' value names. */
  lemma {:induction false} DeserializedKeys(cols: seq<Column>, shares: seq<seq<Byte>>, x: string)
    requires Valid(cols) && Fits(shares, 0, RowSize(cols))
    ensures x in Deserialized(cols, shares) <==> x in EntryNames(cols)
    decreases |cols|
  {
    if |cols| > 0 {
      var front := cols[..|cols| - 1];
      RowSizeGrows(cols, |cols| - 1);
      assert Valid(front);
      DeserializedKeys(front, shares, x);
      var es := Entries(cols[|cols| - 1], shares, RowSize(front));
      EmplaceAllKeys(Deserialized(front, shares), es, x);
      var names := ColumnNames(cols[|cols| - 1]);
      if x in names {
        var i :| 0 <= i < |names| && names[i] == x;
        assert es[i].0 == x;
      }
    }
  }

  /** With distinct names, each column's values are found under their
      names. */
  lemma {:induction false} DeserializedAt(cols: seq<Column>, shares: seq<seq<Byte>>, k: nat, i: nat)
    requires Valid(cols) && Fits(shares, 0, RowSize(cols)) && Distinct(EntryNames(cols))
    requires k < |cols| && i < |ColumnNames(cols[k])|
    ensures RowSize(cols[..k]) + ColumnSize(cols[k]) <= RowSize(cols)
    ensures Entries(cols[k], shares, RowSize(cols[..k]))[i].0 in Deserialized(cols, shares)
    ensures Deserialized(cols, shares)[Entries(cols[k], shares, RowSize(cols[..k]))[i].0] == Entries(cols[k], shares, RowSize(cols[..k]))[i].1
    decreases |cols|
  {
    if k == |cols| - 1 {
      DeserializedLast(cols, shares, i);
    } else {
      var front := cols[..|cols| - 1];
      RowSizeGrows(cols, |cols| - 1);
      RowSizeGrows(cols, k + 1);
      assert cols[..k + 1][..k] == cols[..k];
      assert Valid(front);
      DistinctSplit(EntryNames(front), ColumnNames(cols[|cols| - 1]));
      assert front[k] == cols[k] && front[..k] == cols[..k];
      DeserializedAt(front, shares, k, i);
      EmplaceAllKeeps(Deserialized(front, shares), Entries(cols[|cols| - 1], shares, RowSize(front)), Entries(cols[k], shares, RowSize(cols[..k]))[i].0);
    }
  }

  /** The last column's entries are new names, so each lands in the map
      as read. */
  lemma DeserializedLast(cols: seq<Column>, shares: seq<seq<Byte>>, i: nat)
    requires Valid(cols) && Fits(shares, 0, RowSize(cols)) && Distinct(EntryNames(cols))
    requires 0 < |cols| && i < |ColumnNames(cols[|cols| - 1])|
    ensures RowSize(cols[..|cols| - 1]) + ColumnSize(cols[|cols| - 1]) == RowSize(cols)
    ensures Entries(cols[|cols| - 1], shares, RowSize(cols[..|cols| - 1]))[i].0 in Deserialized(cols, shares)
    ensures Deserialized(cols, shares)[Entries(cols[|cols| - 1], shares, RowSize(cols[..|cols| - 1]))[i].0]
      == Entries(cols[|cols| - 1], shares, RowSize(cols[..|cols| - 1]))[i].1
  {
    var front := cols[..|cols| - 1];
    RowSizeGrows(cols, |cols| - 1);
    assert Valid(front);
    DistinctSplit(EntryNames(front), ColumnNames(cols[|cols| - 1]));
    var prior := Deserialized(front, shares);
    var es := Entries(cols[|cols| - 1], shares, RowSize(front));
    forall a | 0 <= a < |es|
      ensures es[a].0 !in prior
    {
      DeserializedKeys(front, shares, es[a].0);
    }
    EmplaceAllFresh(prior, es, i);
  }

  /** Column k's bytes sit in every row at the sum of the sizes before
      it. */
  lemma {:induction false} RowBytesAt(cols: seq<Column>, data: map<string, ColumnData>, numRows: nat, j: nat, k: nat)
    requires AllAccepted(cols, data, numRows) && ArraysShaped(cols, data, numRows) && j < numRows && k < |cols|
    ensures RowSize(cols[..k]) + ColumnSize(cols[k]) <= RowSize(cols)
    ensures RowBytes(cols, data, numRows, j)[RowSize(cols[..k])..RowSize(cols[..k]) + ColumnSize(cols[k])] == ColumnBytes(cols[k], data, numRows, j)
    decreases |cols|, 1
  {
    if k == |cols| - 1 {
      RowBytesAtLast(cols, data, numRows, j);
    } else {
      RowBytesAtFront(cols, data, numRows, j, k);
    }
  }

  /** The last column's bytes end the row. */
  lemma RowBytesAtLast(cols: seq<Column>, data: map<string, ColumnData>, numRows: nat, j: nat)
    requires AllAccepted(cols, data, numRows) && ArraysShaped(cols, data, numRows) && j < numRows && 0 < |cols|
    ensures RowSize(cols[..|cols| - 1]) + ColumnSize(cols[|cols| - 1]) == RowSize(cols)
    ensures RowBytes(cols, data, numRows, j)[RowSize(cols[..|cols| - 1])..RowSize(cols)] == ColumnBytes(cols[|cols| - 1], data, numRows, j)
  {
    var n := |cols| - 1;
    RowBytesSplit(cols, data, numRows, j);
    SliceOfJoin(RowBytes(cols, data, numRows, j), RowBytes(cols[..n], data, numRows, j),
                ColumnBytes(cols[n], data, numRows, j), RowSize(cols[..n]), RowSize(cols));
  }

  lemma SliceOfJoin(r: seq<Byte>, a: seq<Byte>, b: seq<Byte>, lo: nat, hi: nat)
    requires r == a + b && lo == |a| && hi == |a| + |b|
    ensures r[lo..hi] == b
  {
    SliceRight(a, b);
  }

  /** The last column's bytes follow the bytes of the columns before it. */
  lemma RowBytesSplit(cols: seq<Column>, data: map<string, ColumnData>, numRows: nat, j: nat)
    requires AllAccepted(cols, data, numRows) && ArraysShaped(cols, data, numRows) && j < numRows && |cols| > 0
    ensures AllAccepted(cols[..|cols| - 1], data, numRows) && ArraysShaped(cols[..|cols| - 1], data, numRows)
    ensures RowBytes(cols, data, numRows, j)
            == RowBytes(cols[..|cols| - 1], data, numRows, j) + ColumnBytes(cols[|cols| - 1], data, numRows, j)
  {
    PrefixAccepted(cols, data, numRows, |cols| - 1);
  }

  /** A column before the last sits where it sits among the columns
      before the last. */
  lemma {:induction false} RowBytesAtFront(cols: seq<Column>, data: map<string, ColumnData>, numRows: nat, j: nat, k: nat)
    requires AllAccepted(cols, data, numRows) && ArraysShaped(cols, data, numRows) && j < numRows && k + 1 < |cols|
    ensures RowSize(cols[..k]) + ColumnSize(cols[k]) <= RowSize(cols)
    ensures RowBytes(cols, data, numRows, j)[RowSize(cols[..k])..RowSize(cols[..k]) + ColumnSize(cols[k])] == ColumnBytes(cols[k], data, numRows, j)
    decreases |cols|, 0
  {
    var front := cols[..|cols| - 1];
    RowSizeGrows(cols, |cols| - 1);
    RowBytesSplit(cols, data, numRows, j);
    assert front[..k] == cols[..k] && front[k] == cols[k];
    RowBytesAt(front, data, numRows, j, k);
    SliceOfConcat(RowBytes(front, data, numRows, j), ColumnBytes(cols[|cols| - 1], data, numRows, j), RowSize(cols[..k]), ColumnSize(cols[k]));
  }

  /** A prefix of accepted, shaped columns is accepted and shaped. */
  lemma PrefixAccepted(cols: seq<Column>, data: map<string, ColumnData>, numRows: nat, n: nat)
    requires AllAccepted(cols, data, numRows) && ArraysShaped(cols, data, numRows) && n <= |cols|
    ensures AllAccepted(cols[..n], data, numRows) && ArraysShaped(cols[..n], data, numRows)
  {
    assert forall x :: 0 <= x < n ==> cols[..n][x] == cols[x];
  }

  /** The integer values the C++ types guarantee: each in its column's
      native range. */
  predicate ColumnNative(c: Column, data: map<string, ColumnData>)
  {
    match c
    case IntegerCol(ic) =>
      IntegerColumns.ValidWidth(ic.width) && ic.name in data && IntVariant(ic, data[ic.name]) ==>
        forall j :: 0 <= j < |data[ic.name].ints| ==> IntegerColumns.InNativeRange(ic, data[ic.name].ints[j])
    case PackedCol(_) => true
    case ArrayCol(ac) =>
      FixedSizeArrayColumns.Valid(ac) && ac.name in data && ArrayVariant(ac, data[ac.name]) ==>
        forall j, i :: 0 <= j < |data[ac.name].arrays| && 0 <= i < |data[ac.name].arrays[j]| ==>
          IntegerColumns.InNativeRange(ac.inner, data[ac.name].arrays[j][i])
  }

  predicate NativeValues(cols: seq<Column>, data: map<string, ColumnData>)
  {
    forall k :: 0 <= k < |cols| ==> ColumnNative(cols[k], data)
  }

  /** The rows serialisation produces fit the structure. */
  lemma SerializedFits(cols: seq<Column>, data: map<string, ColumnData>, numRows: nat)
    requires Valid(cols) && ArraysShaped(cols, data, numRows) && Serialized(cols, data, numRows).Ok?
    ensures Fits(Serialized(cols, data, numRows).value, 0, RowSize(cols))
    ensures AllAccepted(cols, data, numRows) && |Serialized(cols, data, numRows).value| == numRows
  {
    SerializedRows(cols, data, numRows);
  }

  /** The bytes column k left in row j. */
  lemma ColumnSlice(cols: seq<Column>, data: map<string, ColumnData>, numRows: nat, j: nat, k: nat)
    requires Valid(cols) && ArraysShaped(cols, data, numRows) && Serialized(cols, data, numRows).Ok?
    requires j < numRows && k < |cols|
    ensures AllAccepted(cols, data, numRows) && |Serialized(cols, data, numRows).value| == numRows
    ensures RowSize(cols[..k]) + ColumnSize(cols[k]) <= |Serialized(cols, data, numRows).value[j]|
    ensures Serialized(cols, data, numRows).value[j][RowSize(cols[..k])..RowSize(cols[..k]) + ColumnSize(cols[k])] == ColumnBytes(cols[k], data, numRows, j)
  {
    SerializedRows(cols, data, numRows);
    RowBytesAt(cols, data, numRows, j, k);
  }

  /** Column k's bytes in every row, at the sum of the sizes before it. */
  lemma ColumnSlices(cols: seq<Column>, data: map<string, ColumnData>, numRows: nat, k: nat)
    requires Valid(cols) && ArraysShaped(cols, data, numRows) && Serialized(cols, data, numRows).Ok? && k < |cols|
    ensures AllAccepted(cols, data, numRows) && |Serialized(cols, data, numRows).value| == numRows
    ensures Fits(Serialized(cols, data, numRows).value, RowSize(cols[..k]), ColumnSize(cols[k]))
    ensures forall j :: 0 <= j < numRows ==>
      Serialized(cols, data, numRows).value[j][RowSize(cols[..k])..RowSize(cols[..k]) + ColumnSize(cols[k])] == ColumnBytes(cols[k], data, numRows, j)
  {
    SerializedFits(cols, data, numRows);
    RowSizeGrows(cols, k + 1);
    assert cols[..k + 1][..k] == cols[..k];
    forall j | 0 <= j < numRows
      ensures Serialized(cols, data, numRows).value[j][RowSize(cols[..k])..RowSize(cols[..k]) + ColumnSize(cols[k])] == ColumnBytes(cols[k], data, numRows, j)
    {
      ColumnSlice(cols, data, numRows, j, k);
    }
  }

  /** An integer column reads back exactly the values written. */
  lemma RoundTripInteger(cols: seq<Column>, data: map<string, ColumnData>, numRows: nat, k: nat)
    requires Valid(cols) && ArraysShaped(cols, data, numRows) && Distinct(EntryNames(cols)) && NativeValues(cols, data)
    requires Serialized(cols, data, numRows).Ok? && k < |cols| && cols[k].IntegerCol?
    ensures Fits(Serialized(cols, data, numRows).value, 0, RowSize(cols)) && AllAccepted(cols, data, numRows)
    ensures cols[k].ic.name in Deserialized(cols, Serialized(cols, data, numRows).value)
    ensures Deserialized(cols, Serialized(cols, data, numRows).value)[cols[k].ic.name] == data[cols[k].ic.name]
  {
    var rows := Serialized(cols, data, numRows).value;
    SerializedFits(cols, data, numRows);
    assert ColumnNative(cols[k], data) && ColumnValid(cols[k]) && Accepted(cols[k], data, numRows);
    IntegerColumnSlices(cols, data, numRows, k);
    IntegerEntryRead(cols[k].ic, data, numRows, rows, RowSize(cols[..k]));
    DeserializedAt(cols, rows, k, 0);
  }

  /** An integer column's entry, read from rows that hold its values
      little-endian at offset, is the values written. */
  lemma IntegerEntryRead(ic: IntegerColumns.IntegerColumn, data: map<string, ColumnData>, numRows: nat, rows: seq<seq<Byte>>, offset: nat)
    requires IntegerColumns.ValidWidth(ic.width) && Accepted(IntegerCol(ic), data, numRows) && ColumnNative(IntegerCol(ic), data)
    requires |rows| == numRows && Fits(rows, offset, IntegerColumns.SizeBytes(ic))
    requires forall j :: 0 <= j < numRows ==>
      rows[j][offset..offset + IntegerColumns.SizeBytes(ic)] == IntegerColumns.LittleEndian(data[ic.name].ints[j], IntegerColumns.SizeBytes(ic))
    ensures Entries(IntegerCol(ic), rows, offset)[0] == (ic.name, data[ic.name])
  {
    IntegerColumns.DecodeEncodedValues(ic, rows, offset, data[ic.name].ints);
  }

  /** An integer column's values sit little-endian in every row, at the
      sum of the sizes before it. */
  lemma IntegerColumnSlices(cols: seq<Column>, data: map<string, ColumnData>, numRows: nat, k: nat)
    requires Valid(cols) && ArraysShaped(cols, data, numRows) && Serialized(cols, data, numRows).Ok?
    requires k < |cols| && cols[k].IntegerCol?
    ensures AllAccepted(cols, data, numRows) && |Serialized(cols, data, numRows).value| == numRows
    ensures Fits(Serialized(cols, data, numRows).value, RowSize(cols[..k]), IntegerColumns.SizeBytes(cols[k].ic))
    ensures forall j :: 0 <= j < numRows ==>
      var size := IntegerColumns.SizeBytes(cols[k].ic);
      Serialized(cols, data, numRows).value[j][RowSize(cols[..k])..RowSize(cols[..k]) + size]
        == IntegerColumns.LittleEndian(data[cols[k].ic.name].ints[j], size)
  {
    ColumnSlices(cols, data, numRows, k);
    var ic := cols[k].ic;
    forall j | 0 <= j < numRows
      ensures ColumnBytes(cols[k], data, numRows, j) == IntegerColumns.LittleEndian(data[ic.name].ints[j], IntegerColumns.SizeBytes(ic))
    {
    }
  }

  /** Each bit of a packed column reads back as written. */
  lemma RoundTripBits(cols: seq<Column>, data: map<string, ColumnData>, numRows: nat, k: nat, i: nat)
    requires Valid(cols) && ArraysShaped(cols, data, numRows) && Distinct(EntryNames(cols)) && PackedSized(cols)
    requires Serialized(cols, data, numRows).Ok? && k < |cols| && cols[k].PackedCol? && i < |cols[k].pc.subColumnNames|
    ensures Fits(Serialized(cols, data, numRows).value, 0, RowSize(cols)) && AllAccepted(cols, data, numRows)
    ensures cols[k].pc.subColumnNames[i] in data
    ensures cols[k].pc.subColumnNames[i] in Deserialized(cols, Serialized(cols, data, numRows).value)
    ensures Deserialized(cols, Serialized(cols, data, numRows).value)[cols[k].pc.subColumnNames[i]] == data[cols[k].pc.subColumnNames[i]]
  {
    var rows := Serialized(cols, data, numRows).value;
    SerializedFits(cols, data, numRows);
    assert ColumnValid(cols[k]) && Accepted(cols[k], data, numRows);
    assert 1 <= |cols[k].pc.subColumnNames| <= PackedBitFields.MaxSubColumns;
    ColumnSlices(cols, data, numRows, k);
    PackedEntryRead(cols[k].pc, data, numRows, rows, RowSize(cols[..k]), i);
    DeserializedAt(cols, rows, k, i);
  }

  /** Bit i of every row's packed byte is sub-column i's value. */
  lemma PackedEntryRead(pc: PackedBitFields.PackedBitFieldColumn, data: map<string, ColumnData>, numRows: nat, rows: seq<seq<Byte>>, offset: nat, i: nat)
    requires 1 <= |pc.subColumnNames| <= PackedBitFields.MaxSubColumns && i < |pc.subColumnNames|
    requires Accepted(PackedCol(pc), data, numRows)
    requires |rows| == numRows && Fits(rows, offset, PackedBitFields.SizeBytes)
    requires forall j :: 0 <= j < numRows ==> rows[j][offset..offset + PackedBitFields.SizeBytes] == ColumnBytes(PackedCol(pc), data, numRows, j)
    ensures pc.subColumnNames[i] in data
    ensures Entries(PackedCol(pc), rows, offset)[i] == (pc.subColumnNames[i], data[pc.subColumnNames[i]])
  {
    var name := pc.subColumnNames[i];
    PackedErrorNone(pc.subColumnNames, data, numRows);
    assert SubError(name, data, numRows).None?;
    var bitPack := BitPack(pc, data, numRows);
    forall j | 0 <= j < numRows
      ensures PackedBitFields.Unpacked(pc, rows, offset)[i][j] == data[name].bits[j]
    {
      assert rows[j][offset] == rows[j][offset..offset + 1][0];
      PackedBitFields.UnpackPacked(bitPack[j], i);
    }
    assert PackedBitFields.Unpacked(pc, rows, offset)[i] == data[name].bits;
  }

  /** An array column reads back each element across the rows: element
      i of row j comes back at [i][j]. */
  lemma RoundTripArray(cols: seq<Column>, data: map<string, ColumnData>, numRows: nat, k: nat)
    requires Valid(cols) && ArraysShaped(cols, data, numRows) && Distinct(EntryNames(cols)) && NativeValues(cols, data)
    requires Serialized(cols, data, numRows).Ok? && k < |cols| && cols[k].ArrayCol?
    ensures Fits(Serialized(cols, data, numRows).value, 0, RowSize(cols)) && AllAccepted(cols, data, numRows)
    ensures cols[k].ac.name in Deserialized(cols, Serialized(cols, data, numRows).value)
    ensures ArrayRead(cols[k].ac, data, numRows, Deserialized(cols, Serialized(cols, data, numRows).value)[cols[k].ac.name])
  {
    var rows := Serialized(cols, data, numRows).value;
    SerializedFits(cols, data, numRows);
    DeserializedAt(cols, rows, k, 0);
    SerializedArrayEntry(cols, data, numRows, k);
  }

  /** The entry an array column contributes when its own serialised rows
      are read back. */
  lemma SerializedArrayEntry(cols: seq<Column>, data: map<string, ColumnData>, numRows: nat, k: nat)
    requires Valid(cols) && ArraysShaped(cols, data, numRows) && NativeValues(cols, data)
    requires Serialized(cols, data, numRows).Ok? && k < |cols| && cols[k].ArrayCol?
    ensures AllAccepted(cols, data, numRows) && Fits(Serialized(cols, data, numRows).value, RowSize(cols[..k]), ColumnSize(cols[k]))
    ensures ArrayRead(cols[k].ac, data, numRows, Entries(cols[k], Serialized(cols, data, numRows).value, RowSize(cols[..k]))[0].1)
  {
    assert ColumnNative(cols[k], data);
    ColumnSlices(cols, data, numRows, k);
    ArrayEntryRead(cols[k], data, numRows, Serialized(cols, data, numRows).value, RowSize(cols[..k]));
  }

  /** An array column's entry, read from rows that hold its bytes at
      offset, is the arrays written, transposed. */
  lemma ArrayEntryRead(c: Column, data: map<string, ColumnData>, numRows: nat, rows: seq<seq<Byte>>, offset: nat)
    requires c.ArrayCol? && ColumnValid(c) && Accepted(c, data, numRows) && ArrayShaped(c.ac, data, numRows) && ColumnNative(c, data)
    requires |rows| == numRows && Fits(rows, offset, ColumnSize(c))
    requires forall j :: 0 <= j < numRows ==> rows[j][offset..offset + ColumnSize(c)] == ColumnBytes(c, data, numRows, j)
    ensures ArrayRead(c.ac, data, numRows, Entries(c, rows, offset)[0].1)
  {
    ArrayColumnReadBack(c.ac, data, numRows, rows, offset);
  }

  /** Rows holding each row's array encoded at offset read back every
      element across the rows. */
  lemma ArrayColumnReadBack(ac: FixedSizeArrayColumns.FixedSizeArrayColumn, data: map<string, ColumnData>, numRows: nat, rows: seq<seq<Byte>>, offset: nat)
    requires FixedSizeArrayColumns.Valid(ac) && |rows| == numRows && Fits(rows, offset, FixedSizeArrayColumns.SizeBytes(ac))
    requires ac.name in data && ArrayVariant(ac, data[ac.name]) && ArrayShaped(ac, data, numRows) && ColumnNative(ArrayCol(ac), data)
    requires forall j :: 0 <= j < numRows ==>
      rows[j][offset..offset + FixedSizeArrayColumns.SizeBytes(ac)] == FixedSizeArrayColumns.Encoded(data[ac.name].arrays[j], FixedSizeArrayColumns.InnerSize(ac))
    ensures ArrayRead(ac, data, numRows, ArrayValues(ac.inner.signed, ac.inner.width, FixedSizeArrayColumns.Decoded(ac, rows, offset)))
  {
    FixedSizeArrayColumns.DecodeEncoded(ac, rows, offset, data[ac.name].arrays);
  }

  /** What an array column reads back: the same element type, and
      element i of row j at [i][j]. */
  predicate ArrayRead(ac: FixedSizeArrayColumns.FixedSizeArrayColumn, data: map<string, ColumnData>, numRows: nat, out: ColumnData)
    requires ac.name in data && ArrayVariant(ac, data[ac.name]) && ArrayShaped(ac, data, numRows)
  {
    && out.ArrayValues? && out.arraySigned == ac.inner.signed && out.arrayWidth == ac.inner.width
    && |out.arrays| == ac.length
    && forall i, j :: 0 <= i < ac.length && 0 <= j < numRows ==> j < |out.arrays[i]| && out.arrays[i][j] == data[ac.name].arrays[j][i]
  }
}
